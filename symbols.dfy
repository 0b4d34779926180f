/** Ticker symbols and the artifact paths derived from them.

    A ticker carries the exchange suffix ".NS" (as in "RELIANCE.NS").  The LSTM
    artifacts are named after the ticker with that suffix removed by Python's
    `str.replace(".NS", "")`; the Prophet, random-forest and ARIMA artifacts keep
    the full ticker.  Paths are relative to the project root. */
module Symbols {
  import opened Sequences

  const Suffix: string := ".NS"

  const LstmDir: string := "models/lstm/"
  const ProphetDir: string := "models/prophet/"
  const RfDir: string := "models/rf/"
  const ArimaDir: string := "models/"

  /** Python's `s.replace(".NS", "")`: every occurrence, scanned left to right
      without overlap, is removed. */
  function StripSuffix(s: string): (r: string)
    ensures |r| <= |s|
    ensures forall x :: x in r ==> x in s
  {
    if |s| >= 3 && s[..3] == Suffix then StripSuffix(s[3..])
    else if s == [] then []
    else [s[0]] + StripSuffix(s[1..])
  }

  predicate NoDot(s: string)
  {
    forall i :: 0 <= i < |s| ==> s[i] != '.'
  }

  /** A name without a dot is left alone. */
  lemma {:induction false} StripSuffixNoDot(s: string)
    requires NoDot(s)
    ensures StripSuffix(s) == s
  {
    if s != [] {
      if |s| >= 3 {
        assert s[..3][0] == s[0] != '.';
      }
      StripSuffixNoDot(s[1..]);
      assert s == [s[0]] + s[1..];
    }
  }

  /** Removing the suffix from "NAME.NS" gives "NAME" when NAME has no dot. */
  lemma {:induction false} StripSuffixOfTicker(name: string)
    requires NoDot(name)
    ensures StripSuffix(name + Suffix) == name
  {
    var s := name + Suffix;
    if name == [] {
      assert s[..3] == Suffix;
      assert s[3..] == [];
    } else {
      assert s[..3] != Suffix by {
        assert s[0] == name[0] != '.';
      }
      assert s[1..] == name[1..] + Suffix;
      StripSuffixOfTicker(name[1..]);
      assert name == [name[0]] + name[1..];
    }
  }

  /** The LSTM network file, `models/lstm/{name}.keras`. */
  function LstmModelPath(stock: string): string
  {
    LstmDir + StripSuffix(stock) + ".keras"
  }

  /** The LSTM scaler file, `models/lstm/{name}_scaler.pkl`. */
  function LstmScalerPath(stock: string): string
  {
    LstmDir + StripSuffix(stock) + "_scaler.pkl"
  }

  /** The Prophet model file, `models/prophet/{stock}.pkl` (suffix kept). */
  function ProphetModelPath(stock: string): string
  {
    ProphetDir + stock + ".pkl"
  }

  /** The random-forest model file, `models/rf/{stock}.pkl` (suffix kept). */
  function RfModelPath(stock: string): string
  {
    RfDir + stock + ".pkl"
  }

  /** The ARIMA model file, `models/arima_{stock}.pkl`. */
  function ArimaModelPath(stock: string): string
  {
    ArimaDir + "arima_" + stock + ".pkl"
  }

  /** A path made of a fixed directory, a name and a fixed extension determines the name. */
  lemma PathDeterminesName(dir: string, a: string, b: string, ext: string)
    requires dir + a + ext == dir + b + ext
    ensures a == b
  {
    var p, q := dir + a + ext, dir + b + ext;
    assert |a| == |b|;
    assert a == p[|dir|..|dir| + |a|];
    assert b == q[|dir|..|dir| + |b|];
  }

  /** A network file is never a scaler file, whatever the two stocks. */
  lemma LstmModelNotScaler(a: string, b: string)
    ensures LstmModelPath(a) != LstmScalerPath(b)
  {
    var p, q := LstmModelPath(a), LstmScalerPath(b);
    assert p[|p| - 1] == 's';
    assert q[|q| - 1] == 'l';
  }

  /** Two stocks share LSTM artifacts exactly when their stripped names agree. */
  lemma LstmPathsShared(a: string, b: string)
    ensures LstmModelPath(a) == LstmModelPath(b) <==> StripSuffix(a) == StripSuffix(b)
    ensures LstmScalerPath(a) == LstmScalerPath(b) <==> StripSuffix(a) == StripSuffix(b)
  {
    if LstmModelPath(a) == LstmModelPath(b) {
      PathDeterminesName(LstmDir, StripSuffix(a), StripSuffix(b), ".keras");
    }
    if LstmScalerPath(a) == LstmScalerPath(b) {
      PathDeterminesName(LstmDir, StripSuffix(a), StripSuffix(b), "_scaler.pkl");
    }
  }

  /** Distinct stocks never share a Prophet, random-forest or ARIMA artifact. */
  lemma KeptSuffixPathsInjective(a: string, b: string)
    requires a != b
    ensures ProphetModelPath(a) != ProphetModelPath(b)
    ensures RfModelPath(a) != RfModelPath(b)
    ensures ArimaModelPath(a) != ArimaModelPath(b)
  {
    if ProphetModelPath(a) == ProphetModelPath(b) {
      PathDeterminesName(ProphetDir, a, b, ".pkl");
    }
    if RfModelPath(a) == RfModelPath(b) {
      PathDeterminesName(RfDir, a, b, ".pkl");
    }
    if ArimaModelPath(a) == ArimaModelPath(b) {
      PathDeterminesName(ArimaDir + "arima_", a, b, ".pkl");
    }
  }

  /** Python's string order: lexicographic by code point. */
  predicate StrLe(a: string, b: string)
  {
    a == [] || (b != [] && (a[0] < b[0] || (a[0] == b[0] && StrLe(a[1..], b[1..]))))
  }

  lemma {:induction false} StrLeTotal(a: string, b: string)
    ensures StrLe(a, b) || StrLe(b, a)
  {
    if a != [] && b != [] && a[0] == b[0] {
      StrLeTotal(a[1..], b[1..]);
    }
  }

  lemma {:induction false} StrLeTransitive(a: string, b: string, c: string)
    requires StrLe(a, b) && StrLe(b, c)
    ensures StrLe(a, c)
  {
    if a != [] && b != [] && c != [] && a[0] == b[0] == c[0] {
      StrLeTransitive(a[1..], b[1..], c[1..]);
    }
  }

  lemma StrLeTotalPreorder()
    ensures TotalPreorder(StrLe)
  {
    forall a, b ensures StrLe(a, b) || StrLe(b, a) {
      StrLeTotal(a, b);
    }
    forall a, b, c | StrLe(a, b) && StrLe(b, c) ensures StrLe(a, c) {
      StrLeTransitive(a, b, c);
    }
  }

  /** `sorted(df["Stock"].unique())`. */
  function SortedSymbols(stocks: seq<string>): (r: seq<string>)
  {
    SortBy(Unique(stocks), StrLe)
  }

  /** The batch jobs' stock list: each ticker of the data exactly once, in
      Python's string order. */
  lemma SortedSymbolsSpec(stocks: seq<string>)
    ensures SortedBy(SortedSymbols(stocks), StrLe)
    ensures Distinct(SortedSymbols(stocks))
    ensures forall s :: s in SortedSymbols(stocks) <==> s in stocks
  {
    var u := Unique(stocks);
    StrLeTotalPreorder();
    SortBySorted(u, StrLe);
    SortByDistinct(u, StrLe);
    SortByMembers(u, StrLe);
    UniqueMembers(stocks);
  }
}
