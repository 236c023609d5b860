/**
 * The market-data tool: per-symbol assembly of price, risk and performance figures,
 * the return series, maximum drawdown and Sharpe ratio it is built from, and the
 * parsing of the comma-separated symbol list. The market-data provider is an oracle
 * whose answers are given, one per requested symbol.
 */
module FinancialData {
  import opened Wrappers
  import opened Text
  import opened Numerics
  import opened JsonValue

  /** What the provider produced for one symbol: an exception, or the closing prices
      and volumes of the lookback period (oldest first) with the descriptive `info`. */
  datatype Fetch =
    | Raised(message: string)
    | Fetched(closes: seq<real>, volumes: seq<real>, info: map<string, Json>)

  /** One populated per-symbol record (the nested dictionaries flattened). */
  datatype SymbolRecord = SymbolRecord(
    companyName: Json,
    sector: Json,
    marketCap: Json,
    currentPrice: real,
    dailyVolatility: real,
    annualizedVolatility: real,
    beta: Json,
    sharpeRatio: real,
    maxDrawdown: real,
    totalReturnPercent: real,
    avgDailyReturn: Option<real>,  // None: pandas' NaN mean of an empty return series
    avgVolume: int,
    priceHigh: real,
    priceLow: real,
    skewness: real,
    kurtosis: real,
    dataPoints: nat,
    analysisPeriod: string)

  /** A symbol's entry: an error-tagged dictionary or a populated record. */
  datatype Entry = Error(message: string) | Record(record: SymbolRecord)

  const AnalysisPeriod: string := "2y"

  predicate AllPositive(p: seq<real>) {
    forall k :: 0 <= k < |p| ==> p[k] > 0.0
  }

  /** Provider answers have one volume per price, and prices are positive. */
  predicate WellFormed(f: Fetch) {
    f.Fetched? ==> AllPositive(f.closes) && |f.volumes| == |f.closes|
  }

  // ---------------------------------------------------------------- return series

  /**
   * `closes.pct_change().dropna()`: one return fewer than prices, the i-th being
   * the relative change from price i to price i + 1.
   */
  function PctChange(p: seq<real>): (r: seq<real>)
    requires AllPositive(p)
    ensures |r| == if |p| == 0 then 0 else |p| - 1
    ensures forall i :: 0 <= i < |r| ==> r[i] == p[i + 1] / p[i] - 1.0
  {
    if |p| < 2 then [] else [p[1] / p[0] - 1.0] + PctChange(p[1..])
  }

  /** `start` grown by the return `x`. */
  function Grow(start: real, x: real): real {
    start * (1.0 + x)
  }

  /** Compounding `start` by every return in turn. */
  function Compound(start: real, r: seq<real>): real
    decreases |r|
  {
    if |r| == 0 then start else Compound(Grow(start, r[0]), r[1..])
  }

  /** Round trip: compounding the first price by the return series gives back the last
      price, so the returns lose nothing of the price path but its level. */
  lemma {:induction false} CompoundPctChange(p: seq<real>)
    requires AllPositive(p) && |p| > 0
    ensures Compound(p[0], PctChange(p)) == p[|p| - 1]
  {
    if |p| >= 2 {
      var r := PctChange(p);
      assert r[0] == p[1] / p[0] - 1.0 && r[1..] == PctChange(p[1..]);
      assert Grow(p[0], r[0]) == p[1];
      CompoundPctChange(p[1..]);
      assert p[1..][0] == p[1] && p[1..][|p| - 2] == p[|p| - 1];
    } else {
      assert PctChange(p) == [];
    }
  }

  // ---------------------------------------------------------------- drawdown

  function RealMax(a: real, b: real): real { if a >= b then a else b }

  /** `prices.cummax()`: the running peak, never decreasing and never below the price. */
  function RunningPeak(p: seq<real>): (peak: seq<real>)
    ensures |peak| == |p|
    ensures forall i :: 0 <= i < |p| ==> p[i] <= peak[i]
    ensures NonDecreasing(peak)
  {
    if |p| <= 1 then p
    else
      var init := RunningPeak(p[..|p| - 1]);
      var last := RealMax(init[|init| - 1], p[|p| - 1]);
      assert forall i :: 0 <= i < |p| - 1 ==> p[..|p| - 1][i] == p[i];
      init + [last]
  }

  /** Where the prices never fall, the running peak is the price itself. */
  lemma {:induction false} PeakOfNonDecreasing(p: seq<real>)
    requires NonDecreasing(p)
    ensures RunningPeak(p) == p
  {
    if |p| > 1 {
      var init := p[..|p| - 1];
      PeakOfNonDecreasing(init);
      assert init + [p[|p| - 1]] == p;
    }
  }

  /** One more price extends the running peak by the larger of the old peak and that price. */
  lemma PeakSnoc(p: seq<real>)
    requires |p| >= 2
    ensures RunningPeak(p) == RunningPeak(p[..|p| - 1]) + [RealMax(RunningPeak(p[..|p| - 1])[|p| - 2], p[|p| - 1])]
  {
  }

  /** The last peak, in terms of the peak one price earlier. */
  lemma PeakSnocLast(p: seq<real>)
    requires |p| >= 2
    ensures RunningPeak(p)[|p| - 1] == RealMax(RunningPeak(p[..|p| - 1])[|p| - 2], p[|p| - 1])
  {
    PeakSnoc(p);
  }

  /** The running peak starts at the first price. */
  lemma {:induction false} PeakFirst(p: seq<real>)
    requires |p| > 0
    ensures RunningPeak(p)[0] == p[0]
  {
    if |p| >= 2 {
      PeakSnoc(p);
      PeakFirst(p[..|p| - 1]);
    }
  }

  /** The running peak is, at every index, the largest price up to that index. */
  lemma PeakIsPrefixMax(p: seq<real>, i: nat)
    requires i < |p|
    ensures RunningPeak(p)[i] == Max(p[..i + 1])
  {
    PeakTake(p, i);
    PeakLastIsMax(p[..i + 1]);
  }

  /** The peak at index `i` depends only on the prices up to `i`. */
  lemma {:induction false} PeakTake(p: seq<real>, i: nat)
    requires i < |p|
    ensures RunningPeak(p)[i] == RunningPeak(p[..i + 1])[i]
  {
    if i < |p| - 1 {
      var init := p[..|p| - 1];
      PeakPrefix(p, i);
      PeakTake(init, i);
      assert init[..i + 1] == p[..i + 1];
    } else {
      assert p[..i + 1] == p;
    }
  }

  /** The last peak is the largest price. */
  lemma {:induction false} PeakLastIsMax(p: seq<real>)
    requires |p| > 0
    ensures RunningPeak(p)[|p| - 1] == Max(p)
  {
    if |p| == 1 {
      PeakFirst(p);
    } else {
      PeakLastIsMax(p[..|p| - 1]);
      PeakLastStep(p);
    }
  }

  /** The last peak is the larger of the previous peak and the last price. */
  lemma PeakLastStep(p: seq<real>)
    requires |p| >= 2
    requires RunningPeak(p[..|p| - 1])[|p| - 2] == Max(p[..|p| - 1])
    ensures RunningPeak(p)[|p| - 1] == Max(p)
  {
    PeakSnocLast(p);
  }

  /** Dropping the last price leaves the earlier peaks as they were. */
  lemma PeakPrefix(p: seq<real>, i: nat)
    requires i < |p| - 1
    ensures RunningPeak(p)[i] == RunningPeak(p[..|p| - 1])[i]
  {
    PeakSnoc(p);
  }

  function Drawdown(price: real, peak: real): real
    requires peak > 0.0
  {
    (price - peak) / peak
  }

  /**
   * `(prices - peak) / peak` at every index: each drawdown lies in (-1, 0], and is 0
   * exactly where the price is at its running peak.
   */
  function Drawdowns(p: seq<real>): (d: seq<real>)
    requires AllPositive(p)
    ensures |d| == |p|
    ensures forall i :: 0 <= i < |p| ==> -1.0 < d[i] <= 0.0
    ensures forall i :: 0 <= i < |p| ==> (d[i] == 0.0 <==> p[i] == RunningPeak(p)[i])
  {
    var peak := RunningPeak(p);
    var d := seq(|p|, i requires 0 <= i < |p| => Drawdown(p[i], peak[i]));
    assert forall i :: 0 <= i < |p| ==> -1.0 < d[i] <= 0.0 && (d[i] == 0.0 <==> p[i] == peak[i]) by {
      forall i | 0 <= i < |p| ensures -1.0 < d[i] <= 0.0 && (d[i] == 0.0 <==> p[i] == peak[i]) {
        DrawdownBounds(p[i], peak[i]);
      }
    }
    d
  }

  /** `_calculate_max_drawdown`: the smallest drawdown, which for positive prices lies in (-1, 0]. */
  function MaxDrawdown(p: seq<real>): (m: real)
    requires AllPositive(p) && |p| > 0
    ensures -1.0 < m <= 0.0
  {
    var d := Drawdowns(p);
    assert -1.0 < Min(d) by {
      var k :| 0 <= k < |d| && d[k] == Min(d);
    }
    Min(d)
  }

  predicate NonDecreasing(p: seq<real>) {
    forall i, j :: 0 <= i < j < |p| ==> p[i] <= p[j]
  }

  lemma DrawdownBounds(x: real, peak: real)
    requires 0.0 < x <= peak
    ensures -1.0 < Drawdown(x, peak) <= 0.0
    ensures Drawdown(x, peak) == 0.0 <==> x == peak
  {
    var q := Drawdown(x, peak);
    assert q * peak == x - peak;
    assert (q + 1.0) * peak == x;
    PositiveFactor(q + 1.0, peak);
    PositiveFactor(-q, peak);
  }

  lemma PositiveFactor(a: real, y: real)
    requires y > 0.0
    ensures a * y > 0.0 ==> a > 0.0
    ensures a * y >= 0.0 ==> a >= 0.0
  {
  }

  /** The maximum drawdown is zero exactly when the prices never fall. */
  lemma MaxDrawdownZeroIff(p: seq<real>)
    requires AllPositive(p) && |p| > 0
    ensures MaxDrawdown(p) == 0.0 <==> NonDecreasing(p)
  {
    var peak := RunningPeak(p);
    var d := Drawdowns(p);
    if NonDecreasing(p) {
      PeakOfNonDecreasing(p);
      assert forall i :: 0 <= i < |p| ==> d[i] == 0.0;
      var k :| 0 <= k < |d| && d[k] == MaxDrawdown(p);
    }
    if MaxDrawdown(p) == 0.0 {
      forall i, j | 0 <= i < j < |p| ensures p[i] <= p[j] {
        assert d[i] == 0.0 && d[j] == 0.0;
      }
    }
  }

  // ---------------------------------------------------------------- Sharpe ratio

  /** `returns - risk_free_rate / 252`. */
  function Excess(rets: seq<real>, riskFreeRate: real): (e: seq<real>)
    ensures |e| == |rets|
  {
    seq(|rets|, i requires 0 <= i < |rets| => rets[i] - riskFreeRate / TradingDays)
  }

  /**
   * `_calculate_sharpe_ratio`, with pandas' sample standard deviation. With a
   * positive dispersion of the excess returns, the ratio is positive exactly when
   * the mean return beats the daily risk-free rate, and negative exactly when it
   * falls short.
   */
  function SharpeRatio(rets: seq<real>, riskFreeRate: real, stats: Stats): (ratio: real)
    ensures |rets| > 0 && stats.sqrt252 > 0.0 && stats.sampleStd(Excess(rets, riskFreeRate)) > 0.0 ==>
              && (ratio > 0.0 <==> Mean(rets) > riskFreeRate / TradingDays)
              && (ratio < 0.0 <==> Mean(rets) < riskFreeRate / TradingDays)
  {
    if |rets| == 0 then 0.0
    else
      var excess := Excess(rets, riskFreeRate);
      if stats.sampleStd(excess) == 0.0 then 0.0
      else
        var m, sd := Mean(excess), stats.sampleStd(excess);
        MeanExcess(rets, riskFreeRate);
        assert stats.sqrt252 > 0.0 && sd > 0.0 ==>
                 && (m / sd * stats.sqrt252 > 0.0 <==> m > 0.0)
                 && (m / sd * stats.sqrt252 < 0.0 <==> m < 0.0) by {
          if stats.sqrt252 > 0.0 && sd > 0.0 {
            QuotientSign(m, sd, stats.sqrt252);
          }
        }
        m / sd * stats.sqrt252
  }

  lemma {:induction false} SumShift(xs: seq<real>, c: real)
    ensures Sum(seq(|xs|, i requires 0 <= i < |xs| => xs[i] - c)) == Sum(xs) - |xs| as real * c
  {
    if |xs| > 0 {
      var shifted := seq(|xs|, i requires 0 <= i < |xs| => xs[i] - c);
      SumShift(xs[1..], c);
      assert shifted[1..] == seq(|xs[1..]|, i requires 0 <= i < |xs[1..]| => xs[1..][i] - c);
    }
  }

  /** The mean excess return is the mean return less the daily risk-free rate. */
  lemma MeanExcess(rets: seq<real>, riskFreeRate: real)
    requires |rets| > 0
    ensures Mean(Excess(rets, riskFreeRate)) == Mean(rets) - riskFreeRate / TradingDays
  {
    SumShift(rets, riskFreeRate / TradingDays);
    var n := |rets| as real;
    assert (Sum(rets) - n * (riskFreeRate / TradingDays)) / n == Sum(rets) / n - riskFreeRate / TradingDays;
  }

  /** Both fallbacks give 0.0: no returns, or excess returns with no dispersion. */
  lemma SharpeFallback(rets: seq<real>, riskFreeRate: real, stats: Stats)
    requires |rets| == 0 || stats.sampleStd(Excess(rets, riskFreeRate)) == 0.0
    ensures SharpeRatio(rets, riskFreeRate, stats) == 0.0
  {
  }

  lemma QuotientSign(m: real, s: real, k: real)
    requires s > 0.0 && k > 0.0
    ensures m / s * k > 0.0 <==> m > 0.0
    ensures m / s * k < 0.0 <==> m < 0.0
  {
    if m > 0.0 {
      assert m / s > 0.0;
    } else if m < 0.0 {
      assert m / s < 0.0;
    }
  }

  // ---------------------------------------------------------------- assembly

  /** `int(x)`: truncation toward zero. */
  function Truncate(x: real): int {
    if x >= 0.0 then x.Floor else -((-x).Floor)
  }

  const NoDataPrefix: string := "No data available for "
  const FetchErrorPrefix: string := "Error fetching data for "

  /** The body of the per-symbol `try`: an error for an exception or an empty history,
      otherwise the populated record. */
  function BuildEntry(symbol: string, f: Fetch, riskFreeRate: real, stats: Stats): (e: Entry)
    requires WellFormed(f)
    ensures e.Error? <==> f.Raised? || |f.closes| == 0
    ensures f.Raised? ==> e == Error(FetchErrorPrefix + symbol + ": " + f.message)
    ensures f.Fetched? && |f.closes| == 0 ==> e == Error(NoDataPrefix + symbol)
    ensures e.Record? ==>
      && e.record.dataPoints == |f.closes|
      && e.record.priceLow <= e.record.currentPrice <= e.record.priceHigh
      && -1.0 < e.record.maxDrawdown <= 0.0
      && (e.record.maxDrawdown == 0.0 <==> NonDecreasing(f.closes))
      && (e.record.avgDailyReturn.None? <==> |f.closes| == 1)
    ensures e.Record? ==>
      && e.record.currentPrice == f.closes[|f.closes| - 1]
      && e.record.priceHigh == Max(f.closes)
      && e.record.priceLow == Min(f.closes)
      && e.record.maxDrawdown == MaxDrawdown(f.closes)
      && e.record.sharpeRatio == SharpeRatio(PctChange(f.closes), riskFreeRate, stats)
      && e.record.totalReturnPercent == (f.closes[|f.closes| - 1] / f.closes[0] - 1.0) * 100.0
  {
    match f
    case Raised(message) => Error(FetchErrorPrefix + symbol + ": " + message)
    case Fetched(closes, volumes, info) =>
      if |closes| == 0 then Error(NoDataPrefix + symbol)
      else
        var rets := PctChange(closes);
        var last := closes[|closes| - 1];
        MaxDrawdownZeroIff(closes);
        Record(SymbolRecord(
          companyName := Get(info, "longName", JStr(symbol)),
          sector := Get(info, "sector", JStr("Unknown")),
          marketCap := Get(info, "marketCap", JStr("N/A")),
          currentPrice := last,
          dailyVolatility := stats.sampleStd(rets),
          annualizedVolatility := stats.sampleStd(rets) * stats.sqrt252,
          beta := Get(info, "beta", JStr("N/A")),
          sharpeRatio := SharpeRatio(rets, riskFreeRate, stats),
          maxDrawdown := MaxDrawdown(closes),
          totalReturnPercent := (last / closes[0] - 1.0) * 100.0,
          avgDailyReturn := if |rets| == 0 then None else Some(Mean(rets)),
          avgVolume := Truncate(Mean(volumes)),
          priceHigh := Max(closes),
          priceLow := Min(closes),
          skewness := stats.skew(rets),
          kurtosis := stats.kurtosis(rets),
          dataPoints := |closes|,
          analysisPeriod := AnalysisPeriod))
  }

  /** The distinct symbols of the request list. */
  function Requested(symbols: seq<string>): set<string> {
    set s | s in symbols
  }

  /** `symbols[i]` is not requested again later in the list. */
  predicate LastOccurrence(symbols: seq<string>, i: int)
    requires 0 <= i < |symbols|
  {
    forall j :: i < j < |symbols| ==> symbols[j] != symbols[i]
  }

  /** One assignment of the fetch loop keeps every symbol's entry built from its last request so far. */
  lemma AssignKeepsLast(symbols: seq<string>, fetches: seq<Fetch>, riskFreeRate: real, stats: Stats,
                        n: nat, before: map<string, Entry>, after: map<string, Entry>)
    requires n < |symbols| == |fetches|
    requires forall i :: 0 <= i < |fetches| ==> WellFormed(fetches[i])
    requires before.Keys == Requested(symbols[..n])
    requires forall i :: 0 <= i < n && LastOccurrence(symbols[..n], i) ==>
               before[symbols[i]] == BuildEntry(symbols[i], fetches[i], riskFreeRate, stats)
    requires after == before[symbols[n] := BuildEntry(symbols[n], fetches[n], riskFreeRate, stats)]
    ensures after.Keys == Requested(symbols[..n + 1])
    ensures forall i :: 0 <= i < n + 1 && LastOccurrence(symbols[..n + 1], i) ==>
              after[symbols[i]] == BuildEntry(symbols[i], fetches[i], riskFreeRate, stats)
  {
    RequestedSnoc(symbols, n);
    forall i | 0 <= i < n + 1 && LastOccurrence(symbols[..n + 1], i)
      ensures after[symbols[i]] == BuildEntry(symbols[i], fetches[i], riskFreeRate, stats)
    {
      if i < n {
        LastOccurrenceInit(symbols, n, i);
      }
    }
  }

  /** One more request adds its symbol to the requested set. */
  lemma RequestedSnoc(symbols: seq<string>, n: nat)
    requires n < |symbols|
    ensures Requested(symbols[..n + 1]) == Requested(symbols[..n]) + {symbols[n]}
  {
    assert symbols[..n + 1] == symbols[..n] + [symbols[n]];
  }

  /** A request that is last in the first `n + 1` and not the `n`-th is last in the first `n`, with another symbol. */
  lemma LastOccurrenceInit(symbols: seq<string>, n: nat, i: nat)
    requires i < n < |symbols| && LastOccurrence(symbols[..n + 1], i)
    ensures LastOccurrence(symbols[..n], i) && symbols[i] != symbols[n]
  {
    assert symbols[..n + 1][n] != symbols[..n + 1][i];
    forall j | i < j < n ensures symbols[..n][j] != symbols[..n][i] {
      assert symbols[..n + 1][j] != symbols[..n + 1][i];
    }
  }

  /**
   * `fetch_stock_data`: one dictionary assignment per requested symbol, in order, and
   * never an abort. `fetches[i]` is the provider's answer for the i-th request.
   * Every requested symbol gets exactly one entry, built from its last request.
   */
  method FetchStockData(symbols: seq<string>, fetches: seq<Fetch>, riskFreeRate: real, stats: Stats)
    returns (researchData: map<string, Entry>)
    requires |fetches| == |symbols|
    requires forall i :: 0 <= i < |fetches| ==> WellFormed(fetches[i])
    ensures researchData.Keys == Requested(symbols)
    ensures forall i :: 0 <= i < |symbols| && LastOccurrence(symbols, i) ==>
              researchData[symbols[i]] == BuildEntry(symbols[i], fetches[i], riskFreeRate, stats)
  {
    researchData := map[];
    for n := 0 to |symbols|
      invariant researchData.Keys == Requested(symbols[..n])
      invariant forall i :: 0 <= i < n && LastOccurrence(symbols[..n], i) ==>
                  researchData[symbols[i]] == BuildEntry(symbols[i], fetches[i], riskFreeRate, stats)
    {
      var symbol := symbols[n];
      var f := fetches[n];
      var entry: Entry;
      match f {
        case Raised(message) =>
          entry := Error(FetchErrorPrefix + symbol + ": " + message);
        case Fetched(closes, _, _) =>
          if |closes| == 0 {
            entry := Error(NoDataPrefix + symbol);
          } else {
            entry := BuildEntry(symbol, f, riskFreeRate, stats);
          }
      }
      assert entry == BuildEntry(symbol, f, riskFreeRate, stats);
      ghost var before := researchData;
      researchData := researchData[symbol := entry];
      AssignKeepsLast(symbols, fetches, riskFreeRate, stats, n, before, researchData);

    }
    assert symbols[..|symbols|] == symbols;
  }

  // ---------------------------------------------------------------- symbol parsing

  /**
   * `[s.strip().upper() for s in symbols_str.split(',')]`: one symbol per
   * comma-separated piece, empty pieces included; none holds a comma, a lower-case
   * letter or surrounding whitespace.
   */
  function ParseSymbols(symbolsStr: string): (symbols: seq<string>)
    ensures |symbols| == Count(symbolsStr, ',') + 1
    ensures forall k :: 0 <= k < |symbols| ==> CleanSymbol(symbols[k])
  {
    var pieces := Split(symbolsStr, ',');
    SplitShape(symbolsStr, ',');
    var parsed := seq(|pieces|, k requires 0 <= k < |pieces| => Upper(Strip(pieces[k])));
    assert forall k :: 0 <= k < |parsed| ==> CleanSymbol(parsed[k]) by {
      forall k | 0 <= k < |parsed| ensures CleanSymbol(parsed[k]) {
        PieceClean(pieces[k]);
      }
    }
    parsed
  }

  /** A piece without a comma cleans up into a clean symbol. */
  lemma PieceClean(piece: string)
    requires ',' !in piece
    ensures CleanSymbol(Upper(Strip(piece)))
  {
    StripWithout(piece, ',');
    UpperKeepsClean(Strip(piece));
  }

  /** Upper-casing keeps a comma-free string without surrounding whitespace so. */
  lemma UpperKeepsClean(t: string)
    requires ',' !in t
    requires t == [] || (!IsSpace(t[0]) && !IsSpace(t[|t| - 1]))
    ensures CleanSymbol(Upper(t))
  {
    var u := Upper(t);
    forall k | 0 <= k < |u| ensures u[k] != ',' {
      assert u[k] == t[k] || IsAsciiUpper(u[k]);
    }
    if u != [] {
      assert u[0] == t[0] || IsAsciiUpper(u[0]);
      assert u[|u| - 1] == t[|t| - 1] || IsAsciiUpper(u[|u| - 1]);
    }
  }

  /** No comma, no lower-case ASCII letter, no whitespace at either end. */
  predicate CleanSymbol(s: string) {
    && ',' !in s
    && (forall k :: 0 <= k < |s| ==> !IsAsciiLower(s[k]))
    && (s == [] || (!IsSpace(s[0]) && !IsSpace(s[|s| - 1])))
  }

  /** Round trip: parsing the comma-join of clean symbols returns them unchanged. */
  lemma ParseJoined(symbols: seq<string>)
    requires |symbols| >= 1
    requires forall k :: 0 <= k < |symbols| ==> CleanSymbol(symbols[k])
    ensures ParseSymbols(Join(symbols, ',')) == symbols
  {
    forall k | 0 <= k < |symbols| ensures ',' !in symbols[k] {
      assert CleanSymbol(symbols[k]);
    }
    SplitJoin(symbols, ',');
    var parsed := ParseSymbols(Join(symbols, ','));
    forall k | 0 <= k < |symbols| ensures parsed[k] == symbols[k] {
      CleanFixed(symbols[k]);
    }
  }

  /** `symbol` padded with whitespace on both sides. */
  function Pad(pre: string, symbol: string, post: string): string {
    pre + symbol + post
  }

  predicate AllSpace(s: string) {
    forall k :: 0 <= k < |s| ==> IsSpace(s[k])
  }

  /**
   * Parsing a comma-join of whitespace-padded symbols, as in "AAPL, msft , TSLA",
   * returns each symbol upper-cased, with its padding gone and its inner text kept.
   */
  lemma ParsePadded(pieces: seq<string>, pre: seq<string>, syms: seq<string>, post: seq<string>)
    requires |syms| >= 1 && |pieces| == |syms| && |pre| == |syms| && |post| == |syms|
    requires forall k :: 0 <= k < |syms| ==> pieces[k] == Pad(pre[k], syms[k], post[k])
    requires forall k :: 0 <= k < |syms| ==> ',' !in syms[k]
    requires forall k :: 0 <= k < |syms| ==> syms[k] == [] || (!IsSpace(syms[k][0]) && !IsSpace(syms[k][|syms[k]| - 1]))
    requires forall k :: 0 <= k < |syms| ==> AllSpace(pre[k]) && AllSpace(post[k])
    ensures ParseSymbols(Join(pieces, ',')) == seq(|syms|, k requires 0 <= k < |syms| => Upper(syms[k]))
  {
    forall k | 0 <= k < |syms| ensures ',' !in pieces[k] {
      CommaFreePad(pre[k], syms[k], post[k]);
    }
    var str := Join(pieces, ',');
    SplitJoin(pieces, ',');
    forall k | 0 <= k < |syms| ensures ParseSymbols(str)[k] == Upper(syms[k]) {
      PaddedPieceParsed(str, k, pre[k], syms[k], post[k]);
    }
  }

  /** A comma-separated piece that is a padded symbol parses into that symbol, upper-cased. */
  lemma PaddedPieceParsed(symbolsStr: string, k: nat, pre: string, symbol: string, post: string)
    requires k < |Split(symbolsStr, ',')| && Split(symbolsStr, ',')[k] == Pad(pre, symbol, post)
    requires AllSpace(pre) && AllSpace(post)
    requires symbol == [] || (!IsSpace(symbol[0]) && !IsSpace(symbol[|symbol| - 1]))
    ensures k < |ParseSymbols(symbolsStr)| && ParseSymbols(symbolsStr)[k] == Upper(symbol)
  {
    StripPadded(pre, symbol, post);
  }

  /** The symbol list as a user types it: padded, mixed-case. */
  lemma ParseTypedList()
    ensures ParseSymbols("AAPL, msft ,TSLA") == ["AAPL", "MSFT", "TSLA"]
  {
    var pre, syms, post := ["", " ", ""], ["AAPL", "msft", "TSLA"], ["", " ", ""];
    var pieces := ["AAPL", " msft ", "TSLA"];
    assert pieces[1] == Pad(" ", "msft", " ");
    ParsePadded(pieces, pre, syms, post);
    TypedListJoined();
    TypedListUpper();
  }

  lemma TypedListJoined()
    ensures Join(["AAPL", " msft ", "TSLA"], ',') == "AAPL, msft ,TSLA"
  {
    var pieces := ["AAPL", " msft ", "TSLA"];
    assert pieces[1..] == [" msft ", "TSLA"] && pieces[1..][1..] == ["TSLA"];
  }

  lemma TypedListUpper()
    ensures seq(3, k requires 0 <= k < 3 => Upper(["AAPL", "msft", "TSLA"][k])) == ["AAPL", "MSFT", "TSLA"]
  {
    assert Upper("AAPL") == "AAPL" && Upper("msft") == "MSFT" && Upper("TSLA") == "TSLA";
  }

  /** Whitespace padding adds no comma. */
  lemma CommaFreePad(pre: string, symbol: string, post: string)
    requires AllSpace(pre) && AllSpace(post) && ',' !in symbol
    ensures ',' !in Pad(pre, symbol, post)
  {
    var t := Pad(pre, symbol, post);
    assert !IsSpace(',');
    forall j | 0 <= j < |t| ensures t[j] != ',' {
      if j < |pre| {
        assert t[j] == pre[j];
      } else if j < |pre| + |symbol| {
        assert t[j] == symbol[j - |pre|];
      } else {
        assert t[j] == post[j - |pre| - |symbol|];
      }
    }
  }

  /** Cleaning up a clean symbol leaves it as it is. */
  lemma CleanFixed(symbol: string)
    requires CleanSymbol(symbol)
    ensures Upper(Strip(symbol)) == symbol
  {
    StripClean(symbol);
    UpperClean(symbol);
  }

}
