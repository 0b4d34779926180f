/** The signal engine of the Market Analysis page (`app/pages/2_Market_Analysis.py`):
    pick a stock by its display name, keep its rows inside the chosen date range,
    and read trend, RSI condition and suggested action off the latest row. */
module MarketAnalysis {
  import opened Wrappers
  import opened Sequences
  import opened Symbols
  import opened Frames

  datatype Trend = Uptrend | Downtrend | Sideways

  datatype RsiSignal = Overbought | Oversold | Neutral

  datatype Action = Buy | Sell | Hold

  /** `get_trend(price, sma20, sma50)`. */
  function GetTrend(price: real, sma20: real, sma50: real): (t: Trend)
    ensures t == Uptrend <==> price > sma20 > sma50
    ensures t == Downtrend <==> price < sma20 < sma50
    ensures t == Sideways <==> !(price > sma20 > sma50) && !(price < sma20 < sma50)
  {
    if price > sma20 > sma50 then Uptrend
    else if price < sma20 < sma50 then Downtrend
    else Sideways
  }

  /** `get_rsi_signal(rsi)`. */
  function GetRsiSignal(rsi: real): (s: RsiSignal)
    ensures s == Overbought <==> rsi > 70.0
    ensures s == Oversold <==> rsi < 30.0
    ensures s == Neutral <==> 30.0 <= rsi <= 70.0
  {
    if rsi > 70.0 then Overbought
    else if rsi < 30.0 then Oversold
    else Neutral
  }

  /** `trading_signal(price, sma20, rsi)`. */
  function TradingSignal(price: real, sma20: real, rsi: real): (a: Action)
    ensures a == Buy <==> price > sma20 && rsi < 70.0
    ensures a == Sell <==> price < sma20 && rsi > 30.0
    ensures a == Hold <==> (price <= sma20 || rsi >= 70.0) && (price >= sma20 || rsi <= 30.0)
  {
    if price > sma20 && rsi < 70.0 then Buy
    else if price < sma20 && rsi > 30.0 then Sell
    else Hold
  }

  /** The suggested action agrees with the trend unless the RSI overrides it: an
      uptrend with RSI below 70 is a buy, a downtrend with RSI above 30 a sell;
      an overbought stock is never a buy and an oversold one never a sell, and a
      price on its 20-day average is always a hold. */
  lemma SignalFollowsTrend(price: real, sma20: real, sma50: real, rsi: real)
    ensures GetTrend(price, sma20, sma50) == Uptrend && GetRsiSignal(rsi) != Overbought && rsi != 70.0 ==>
              TradingSignal(price, sma20, rsi) == Buy
    ensures GetTrend(price, sma20, sma50) == Downtrend && GetRsiSignal(rsi) != Oversold && rsi != 30.0 ==>
              TradingSignal(price, sma20, rsi) == Sell
    ensures GetRsiSignal(rsi) == Overbought ==> TradingSignal(price, sma20, rsi) != Buy
    ensures GetRsiSignal(rsi) == Oversold ==> TradingSignal(price, sma20, rsi) != Sell
    ensures price == sma20 ==> TradingSignal(price, sma20, rsi) == Hold
  {
  }

  /** `{s.replace(".NS", ""): s for s in stocks}`: a later stock with the same
      display name replaces an earlier one. */
  function DisplayMap(stocks: seq<string>): (m: map<string, string>)
    ensures forall name :: name in m ==> StripSuffix(m[name]) == name && m[name] in stocks
    decreases |stocks|
  {
    if stocks == [] then map[]
    else
      var last := stocks[|stocks| - 1];
      DisplayMap(stocks[..|stocks| - 1])[StripSuffix(last) := last]
  }

  /** Every stock is offered under its display name, and a stock no other stock
      shares that name with is the one selected by it. */
  lemma {:induction false} DisplayMapOffersEveryStock(stocks: seq<string>, s: string)
    requires s in stocks
    ensures StripSuffix(s) in DisplayMap(stocks)
    ensures (forall k :: 0 <= k < |stocks| && StripSuffix(stocks[k]) == StripSuffix(s) ==> stocks[k] == s) ==>
              DisplayMap(stocks)[StripSuffix(s)] == s
    decreases |stocks|
  {
    var init := stocks[..|stocks| - 1];
    var last := stocks[|stocks| - 1];
    if last != s {
      assert s in init by {
        var k :| 0 <= k < |stocks| && stocks[k] == s;
        assert init[k] == s;
      }
      DisplayMapOffersEveryStock(init, s);
      if forall k :: 0 <= k < |stocks| && StripSuffix(stocks[k]) == StripSuffix(s) ==> stocks[k] == s {
        assert StripSuffix(last) != StripSuffix(s);
      }
    }
  }

  /** When two stocks share a display name, the one listed last is selected: no
      stock after it carries that name. */
  lemma {:induction false} DisplayMapLastWins(stocks: seq<string>, name: string)
    requires name in DisplayMap(stocks)
    ensures exists j :: 0 <= j < |stocks| && stocks[j] == DisplayMap(stocks)[name] &&
              forall k :: j < k < |stocks| ==> StripSuffix(stocks[k]) != name
    decreases |stocks|
  {
    var init := stocks[..|stocks| - 1];
    var last := stocks[|stocks| - 1];
    if StripSuffix(last) == name {
      assert stocks[|stocks| - 1] == DisplayMap(stocks)[name];
    } else {
      assert DisplayMap(stocks)[name] == DisplayMap(init)[name];
      DisplayMapLastWins(init, name);
      var j :| 0 <= j < |init| && init[j] == DisplayMap(init)[name] &&
               forall k :: j < k < |init| ==> StripSuffix(init[k]) != name;
      forall k | j < k < |stocks| ensures StripSuffix(stocks[k]) != name {
        if k < |init| {
          assert init[k] == stocks[k];
        }
      }
      assert stocks[j] == DisplayMap(stocks)[name];
    }
  }

  /** An uptrend at RSI exactly 70 is neutral, not overbought, yet still a hold,
      and a downtrend at RSI exactly 30 likewise: the signal's thresholds are
      strict where the RSI condition's are not. */
  lemma SignalBoundaries(price: real, sma20: real, sma50: real)
    ensures GetTrend(price, sma20, sma50) == Uptrend ==>
              GetRsiSignal(70.0) == Neutral && TradingSignal(price, sma20, 70.0) == Hold
    ensures GetTrend(price, sma20, sma50) == Downtrend ==>
              GetRsiSignal(30.0) == Neutral && TradingSignal(price, sma20, 30.0) == Hold
  {
  }

  /** `stock_df[(Date >= start) & (Date <= end)]`: both ends included. */
  function InRange(rows: seq<TechRow>, start: int, end: int): (r: seq<TechRow>)
    ensures forall x :: x in r ==> x in rows && start <= x.base.date <= end
    ensures forall x :: x in rows && start <= x.base.date <= end ==> x in r
  {
    Filter(rows, (row: TechRow) => start <= row.base.date <= end)
  }

  /** The filter keeps the rows in date order. */
  lemma InRangeKeepsOrder(rows: seq<TechRow>, start: int, end: int)
    requires SortedBy(rows, TechByDate)
    ensures SortedBy(InRange(rows, start, end), TechByDate)
  {
    FilterSorted(rows, (row: TechRow) => start <= row.base.date <= end, TechByDate);
  }

  /** Why the page stops before showing anything. */
  datatype Stop = IncompleteRange | EmptyRange

  /** The metric cards and the interpretation panel. */
  datatype Snapshot = Snapshot(price: real, rsi: real, sma20: real, sma50: real, volatility: real,
                               trend: Trend, rsiSignal: RsiSignal, action: Action)

  /** `latest = stock_df.iloc[-1]` and what the page reads off it. */
  function SnapshotOf(latest: TechRow): (s: Snapshot)
    ensures s.price == latest.base.close && s.rsi == latest.rsi14 && s.sma20 == latest.sma20
    ensures s.sma50 == latest.sma50 && s.volatility == latest.volatility20
    ensures s.trend == GetTrend(s.price, s.sma20, s.sma50) && s.rsiSignal == GetRsiSignal(s.rsi)
    ensures s.action == TradingSignal(s.price, s.sma20, s.rsi)
  {
    Snapshot(latest.base.close, latest.rsi14, latest.sma20, latest.sma50, latest.volatility20,
             GetTrend(latest.base.close, latest.sma20, latest.sma50), GetRsiSignal(latest.rsi14),
             TradingSignal(latest.base.close, latest.sma20, latest.rsi14))
  }

  /** `display_map[selected_display]`, the display name picked from the map's
      keys: a stock of the table whose name without ".NS" is the display name. */
  function SelectStock(df: seq<TechRow>, display: string): (stock: string)
    requires display in DisplayMap(SortedSymbols(TechStocks(df)))
    ensures stock in TechStocks(df) && StripSuffix(stock) == display
  {
    SortedSymbolsSpec(TechStocks(df));
    DisplayMap(SortedSymbols(TechStocks(df)))[display]
  }

  /** The page for the selected stock, from its rows to the snapshot: `range` is
      what the date picker returns, one or two dates. */
  function StockSnapshot(df: seq<TechRow>, stock: string, range: seq<int>): (r: Result<Snapshot, Stop>)
    ensures |range| != 2 ==> r == Failure(IncompleteRange)
    ensures r.Success? ==>
              |range| == 2 &&
              exists latest :: IsLatestInRange(df, stock, range[0], range[1], latest) && r.value == SnapshotOf(latest)
  {
    if |range| != 2 then Failure(IncompleteRange)
    else
      var filtered := InRange(TechHistory(df, stock), range[0], range[1]);
      if filtered == [] then Failure(EmptyRange)
      else
        var latest := LatestRow(df, stock, range[0], range[1]);
        assert IsLatestInRange(df, stock, range[0], range[1], latest);
        Success(SnapshotOf(latest))
  }

  /** `stock_df.iloc[-1]` once the rows are filtered to the range. */
  function LatestRow(df: seq<TechRow>, stock: string, start: int, end: int): (row: TechRow)
    requires InRange(TechHistory(df, stock), start, end) != []
    ensures IsLatestInRange(df, stock, start, end, row)
  {
    var filtered := InRange(TechHistory(df, stock), start, end);
    LatestInRange(df, stock, start, end, filtered);
    filtered[|filtered| - 1]
  }

  /** The whole page for the display name chosen in the select box. */
  function MarketSnapshot(df: seq<TechRow>, display: string, range: seq<int>): (r: Result<Snapshot, Stop>)
    requires display in DisplayMap(SortedSymbols(TechStocks(df)))
    ensures |range| != 2 ==> r == Failure(IncompleteRange)
    ensures r.Success? ==>
              |range| == 2 &&
              exists latest: TechRow :: IsLatestInRange(df, latest.base.stock, range[0], range[1], latest) &&
                StripSuffix(latest.base.stock) == display && r.value == SnapshotOf(latest)
  {
    StockSnapshot(df, SelectStock(df, display), range)
  }

  /** The page stops for an incomplete range, and for an empty one exactly when the
      selected stock has no row in it. */
  lemma SnapshotStops(df: seq<TechRow>, stock: string, range: seq<int>)
    ensures StockSnapshot(df, stock, range) == Failure(IncompleteRange) <==> |range| != 2
    ensures StockSnapshot(df, stock, range) == Failure(EmptyRange) <==>
              |range| == 2 &&
              forall i :: 0 <= i < |df| && df[i].base.stock == stock ==> !(range[0] <= df[i].base.date <= range[1])
  {
    if |range| == 2 {
      RowsInRange(df, stock, range[0], range[1]);
    }
  }

  /** `row` is a row of `stock` inside [start, end] and no row of that stock in the
      range is later. */
  predicate IsLatestInRange(df: seq<TechRow>, stock: string, start: int, end: int, row: TechRow)
  {
    row in df && row.base.stock == stock && start <= row.base.date <= end &&
    forall i :: 0 <= i < |df| && df[i].base.stock == stock && start <= df[i].base.date <= end ==>
      df[i].base.date <= row.base.date
  }

  /** A row of the stock lies in the range exactly when it survives the filter. */
  lemma RowsInRange(df: seq<TechRow>, stock: string, start: int, end: int)
    ensures forall i :: 0 <= i < |df| && df[i].base.stock == stock && start <= df[i].base.date <= end ==>
              df[i] in InRange(TechHistory(df, stock), start, end)
    ensures InRange(TechHistory(df, stock), start, end) == [] <==>
              forall i :: 0 <= i < |df| && df[i].base.stock == stock ==> !(start <= df[i].base.date <= end)
  {
    var stockDf := TechHistory(df, stock);
    var filtered := InRange(stockDf, start, end);
    forall i | 0 <= i < |df| && df[i].base.stock == stock && start <= df[i].base.date <= end
      ensures df[i] in filtered
    {
      assert df[i] in TechRowsOf(df, stock);
      assert df[i] in multiset(stockDf);
    }
    if filtered != [] {
      assert filtered[0] in stockDf;
      var j :| 0 <= j < |df| && df[j] == filtered[0];
      assert df[j].base.stock == stock && start <= df[j].base.date <= end;
    }
  }

  /** The last row left by the filter is a row of the stock in the range with the
      latest date there. */
  lemma LatestInRange(df: seq<TechRow>, stock: string, start: int, end: int, filtered: seq<TechRow>)
    requires filtered == InRange(TechHistory(df, stock), start, end) && filtered != []
    ensures IsLatestInRange(df, stock, start, end, filtered[|filtered| - 1])
  {
    var stockDf := TechHistory(df, stock);
    InRangeKeepsOrder(stockDf, start, end);
    RowsInRange(df, stock, start, end);
    var latest := filtered[|filtered| - 1];
    assert latest in stockDf;
    LastIsLatest(filtered);
  }

  /** In rows sorted by date, no row is later than the last one. */
  lemma LastIsLatest(rows: seq<TechRow>)
    requires rows != [] && SortedBy(rows, TechByDate)
    ensures forall x :: x in rows ==> x.base.date <= rows[|rows| - 1].base.date
  {
    forall x | x in rows ensures x.base.date <= rows[|rows| - 1].base.date {
      var k :| 0 <= k < |rows| && rows[k] == x;
      if k < |rows| - 1 {
        assert TechByDate(rows[k], rows[|rows| - 1]);
      }
    }
  }
}
