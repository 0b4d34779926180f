/** The rows of the two CSV tables the pipeline passes around, and the pandas
    selections made on them: one stock's rows (`df[df["Stock"] == stock]`) and
    `sort_values("Date")`.  Dates are day numbers. */
module Frames {
  import opened Sequences

  /** A row of the processed price table (`nifty50_processed.csv`). */
  datatype PriceRow = PriceRow(stock: string, date: int, open: real, high: real,
                               low: real, close: real, volume: real)

  /** A row of the technical table (`nifty50_technical.csv`): a price row and the
      five indicator columns, all present. */
  datatype TechRow = TechRow(base: PriceRow, sma20: real, sma50: real, dayReturn: real,
                             volatility20: real, rsi14: real)

  predicate PriceByDate(a: PriceRow, b: PriceRow) { a.date <= b.date }

  predicate TechByDate(a: TechRow, b: TechRow) { a.base.date <= b.base.date }

  lemma ByDateTotalPreorders()
    ensures TotalPreorder(PriceByDate)
    ensures TotalPreorder(TechByDate)
  {
  }

  /** `df[df["Stock"] == stock]`. */
  function PriceRowsOf(df: seq<PriceRow>, stock: string): (r: seq<PriceRow>)
    ensures forall x :: x in r ==> x.stock == stock && x in df
    ensures forall x :: x in df && x.stock == stock ==> x in r
  {
    Filter(df, (row: PriceRow) => row.stock == stock)
  }

  function TechRowsOf(df: seq<TechRow>, stock: string): (r: seq<TechRow>)
    ensures forall x :: x in r ==> x.base.stock == stock && x in df
    ensures forall x :: x in df && x.base.stock == stock ==> x in r
  {
    Filter(df, (row: TechRow) => row.base.stock == stock)
  }

  /** The `Stock` column. */
  function PriceStocks(df: seq<PriceRow>): (r: seq<string>)
    ensures |r| == |df|
    ensures forall i :: 0 <= i < |df| ==> r[i] == df[i].stock
  {
    seq(|df|, i requires 0 <= i < |df| => df[i].stock)
  }

  function TechStocks(df: seq<TechRow>): (r: seq<string>)
    ensures |r| == |df|
    ensures forall i :: 0 <= i < |df| ==> r[i] == df[i].base.stock
  {
    seq(|df|, i requires 0 <= i < |df| => df[i].base.stock)
  }

  /** `sort_values("Date")`, stable among equal dates. */
  function SortPricesByDate(rows: seq<PriceRow>): (r: seq<PriceRow>)
    ensures multiset(r) == multiset(rows)
    ensures SortedBy(r, PriceByDate)
  {
    ByDateTotalPreorders();
    SortBySorted(rows, PriceByDate);
    SortBy(rows, PriceByDate)
  }

  function SortTechByDate(rows: seq<TechRow>): (r: seq<TechRow>)
    ensures multiset(r) == multiset(rows)
    ensures SortedBy(r, TechByDate)
  {
    ByDateTotalPreorders();
    SortBySorted(rows, TechByDate);
    SortBy(rows, TechByDate)
  }

  /** The `Close` column. */
  function Closes(rows: seq<PriceRow>): (r: seq<real>)
    ensures |r| == |rows|
    ensures forall i :: 0 <= i < |rows| ==> r[i] == rows[i].close
  {
    seq(|rows|, i requires 0 <= i < |rows| => rows[i].close)
  }
  /** `df[df["Stock"] == stock].sort_values("Date")`: one stock's price history in
      date order. */
  function StockHistory(df: seq<PriceRow>, stock: string): (r: seq<PriceRow>)
    ensures multiset(r) == multiset(PriceRowsOf(df, stock))
    ensures SortedBy(r, PriceByDate)
    ensures forall x :: x in r ==> x.stock == stock && x in df
    ensures forall x :: x in df && x.stock == stock ==> x in r
  {
    var r := SortPricesByDate(PriceRowsOf(df, stock));
    assert forall x :: x in r ==> x in multiset(PriceRowsOf(df, stock));
    assert forall x :: x in PriceRowsOf(df, stock) ==> x in multiset(r);
    r
  }

  /** `df[df["Stock"] == stock].sort_values("Date")` on the technical table. */
  function TechHistory(df: seq<TechRow>, stock: string): (r: seq<TechRow>)
    ensures multiset(r) == multiset(TechRowsOf(df, stock))
    ensures SortedBy(r, TechByDate)
    ensures forall x :: x in r ==> x.base.stock == stock && x in df
    ensures forall x :: x in df && x.base.stock == stock ==> x in r
  {
    var r := SortTechByDate(TechRowsOf(df, stock));
    assert forall x :: x in r ==> x in multiset(TechRowsOf(df, stock));
    assert forall x :: x in TechRowsOf(df, stock) ==> x in multiset(r);
    r
  }
}
