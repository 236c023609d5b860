/**
 * The risk calculator: Value at Risk and Conditional VaR per confidence level,
 * portfolio metrics over a weights vector and a returns matrix, and the dispatch
 * of a decoded request on its `calculation_type`.
 */
module RiskCalculator {
  import opened Wrappers
  import opened Text
  import opened Numerics

  /** The two research parameters the calculator reads from the configuration. */
  datatype Settings = Settings(riskFreeRate: real, confidenceLevels: seq<real>)

  /** `RISK_FREE_RATE = 0.05` and `CONFIDENCE_LEVELS = [0.95, 0.99]`. */
  const DefaultSettings: Settings := Settings(0.05, [0.95, 0.99])

  const NoReturnsError: string := "No returns provided for VaR calculation"
  const MissingPortfolioInputs: string := "Weights or returns matrix missing for portfolio calculation"
  const UnknownCalculationType: string := "Unknown calculation type"
  /** The `ValueError` numpy raises for a percentile outside [0, 100]. */
  const PercentileRangeError: string := "Percentiles must be in the range [0, 100]"

  // ---------------------------------------------------------------- percentile

  /** A percentile numpy accepts. */
  predicate ValidPercentile(q: real) { 0.0 <= q <= 100.0 }

  /** `a + t * (b - a)`: the straight line from `a` to `b`. */
  function Lerp(a: real, b: real, t: real): real { a + t * (b - a) }

  lemma LerpBounds(a: real, b: real, t: real)
    requires a <= b && 0.0 <= t <= 1.0
    ensures a <= Lerp(a, b, t) <= b
  {
    assert 0.0 <= t * (b - a) <= b - a by {
      NonNegativeProduct(t, b - a);
      NonNegativeProduct(1.0 - t, b - a);
    }
  }

  lemma NonNegativeProduct(x: real, y: real)
    requires x >= 0.0 && y >= 0.0
    ensures x * y >= 0.0
  {
  }

  /** The fractional rank `(n - 1) * q / 100` of the q-th percentile among `n` values. */
  function Rank(n: nat, q: real): (h: real)
    requires n > 0 && ValidPercentile(q)
    ensures 0.0 <= h <= (n - 1) as real
  {
    NonNegativeProduct((n - 1) as real, q / 100.0);
    NonNegativeProduct((n - 1) as real, 1.0 - q / 100.0);
    (n - 1) as real * (q / 100.0)
  }

  /** Linear interpolation in an ascending series at the fractional index `h`. */
  function Interpolate(s: seq<real>, h: real): real
    requires |s| > 0 && 0.0 <= h <= (|s| - 1) as real
  {
    var lo := h.Floor;
    if lo + 1 < |s| then Lerp(s[lo], s[lo + 1], h - lo as real) else s[lo]
  }

  /** Interpolation stays between the first and the last element of an ascending series. */
  lemma InterpolateBounds(s: seq<real>, h: real)
    requires |s| > 0 && 0.0 <= h <= (|s| - 1) as real && SortedAsc(s)
    ensures s[0] <= Interpolate(s, h) <= s[|s| - 1]
  {
    var lo := h.Floor;
    if lo + 1 < |s| {
      LerpBounds(s[lo], s[lo + 1], h - lo as real);
      assert s[0] <= s[lo] && s[lo + 1] <= s[|s| - 1];
    } else {
      assert s[0] <= s[lo] <= s[|s| - 1];
    }
  }

  /** Interpolation at a larger index in an ascending series is never smaller. */
  lemma InterpolateMonotone(s: seq<real>, h1: real, h2: real)
    requires |s| > 0 && 0.0 <= h1 <= h2 <= (|s| - 1) as real && SortedAsc(s)
    ensures Interpolate(s, h1) <= Interpolate(s, h2)
  {
    var lo1, lo2 := h1.Floor, h2.Floor;
    if lo1 == lo2 {
      if lo1 + 1 < |s| {
        LerpMonotone(s[lo1], s[lo1 + 1], h1 - lo1 as real, h2 - lo2 as real);
      }
    } else {
      assert lo1 + 1 <= lo2 < |s|;
      LerpBounds(s[lo1], s[lo1 + 1], h1 - lo1 as real);
      assert Interpolate(s, h1) <= s[lo1 + 1] <= s[lo2];
      if lo2 + 1 < |s| {
        LerpBounds(s[lo2], s[lo2 + 1], h2 - lo2 as real);
      }
    }
  }

  /**
   * `np.percentile(xs, q)` with numpy's default linear method: sort, locate the
   * fractional rank, and interpolate between the two order statistics around it.
   * A percentile never leaves the range of the data.
   */
  function Percentile(xs: seq<real>, q: real): (p: real)
    requires |xs| > 0 && ValidPercentile(q)
    ensures Min(xs) <= p <= Max(xs)
  {
    SortAscEnds(xs);
    InterpolateBounds(SortAsc(xs), Rank(|xs|, q));
    Interpolate(SortAsc(xs), Rank(|xs|, q))
  }

  lemma RankMonotone(n: nat, q1: real, q2: real)
    requires n > 0 && ValidPercentile(q1) && ValidPercentile(q2) && q1 <= q2
    ensures Rank(n, q1) <= Rank(n, q2)
  {
    NonNegativeProduct((n - 1) as real, q2 / 100.0 - q1 / 100.0);
  }

  /** Interpolation with a larger weight moves further towards the upper end. */
  lemma LerpMonotone(a: real, b: real, t1: real, t2: real)
    requires a <= b && t1 <= t2
    ensures Lerp(a, b, t1) <= Lerp(a, b, t2)
  {
    NonNegativeProduct(t2 - t1, b - a);
  }

  /** A higher percentile is never smaller. */
  lemma PercentileMonotone(xs: seq<real>, q1: real, q2: real)
    requires |xs| > 0 && ValidPercentile(q1) && ValidPercentile(q2) && q1 <= q2
    ensures Percentile(xs, q1) <= Percentile(xs, q2)
  {
    RankMonotone(|xs|, q1, q2);
    InterpolateMonotone(SortAsc(xs), Rank(|xs|, q1), Rank(|xs|, q2));
  }

  // ---------------------------------------------------------------- VaR and CVaR

  /** A confidence level whose percentile `(1 - c) * 100` numpy accepts. */
  predicate ValidConfidence(c: real) { 0.0 <= c <= 1.0 }

  /** `int(confidence * 100)`, the percentage printed in the keys. */
  function Percent(c: real): (k: nat)
    requires ValidConfidence(c)
    ensures k <= 100
  {
    (c * 100.0).Floor
  }

  /** `(1 - confidence) * 100`: the percentile of the loss tail. */
  function TailPercent(c: real): (q: real)
    requires ValidConfidence(c)
    ensures ValidPercentile(q)
  {
    (1.0 - c) * 100.0
  }

  /** The historical VaR: the `(1 - c) * 100`-th percentile of the returns, between the worst and the best return. */
  function HistoricalVaR(rets: seq<real>, c: real): (v: real)
    requires |rets| > 0 && ValidConfidence(c)
    ensures Min(rets) <= v <= Max(rets)
  {
    Percentile(rets, TailPercent(c))
  }

  /**
   * The parametric VaR: `mean + std * norm.ppf(1 - c)`, with numpy's `std`. It is the
   * mean return for a series without dispersion, and lies at or below the mean
   * whenever the normal quantile of the tail is not positive.
   */
  function ParametricVaR(rets: seq<real>, c: real, stats: Stats): (v: real)
    requires |rets| > 0
    ensures stats.populationStd(rets) == 0.0 ==> v == Mean(rets)
    ensures stats.populationStd(rets) >= 0.0 && stats.normPpf(1.0 - c) <= 0.0 ==> v <= Mean(rets)
  {
    var sd, z := stats.populationStd(rets), stats.normPpf(1.0 - c);
    assert sd >= 0.0 && z <= 0.0 ==> sd * z <= 0.0 by {
      if sd >= 0.0 && z <= 0.0 {
        NonNegativeProduct(sd, -z);
      }
    }
    Mean(rets) + sd * z
  }

  /** `returns_array[returns_array <= threshold]`: the returns at or below a threshold, in order. */
  function AtOrBelow(xs: seq<real>, threshold: real): (r: seq<real>)
    ensures forall k :: 0 <= k < |r| ==> r[k] <= threshold
    ensures forall x :: x in r <==> x in xs && x <= threshold
    ensures forall x :: multiset(r)[x] == if x <= threshold then multiset(xs)[x] else 0
  {
    if |xs| == 0 then []
    else
      assert xs == [xs[0]] + xs[1..];
      if xs[0] <= threshold then [xs[0]] + AtOrBelow(xs[1..], threshold)
      else AtOrBelow(xs[1..], threshold)
  }

  /** The tail below the historical VaR is never empty: it holds the smallest return. */
  lemma TailHoldsMinimum(rets: seq<real>, c: real)
    requires |rets| > 0 && ValidConfidence(c)
    ensures Min(rets) in AtOrBelow(rets, HistoricalVaR(rets, c))
  {
  }

  /**
   * The CVaR (expected shortfall): the mean of the returns at or below the historical
   * VaR, which lies between the worst return and the historical VaR.
   */
  function ConditionalVaR(rets: seq<real>, c: real): (cvar: real)
    requires |rets| > 0 && ValidConfidence(c)
    ensures Min(rets) <= cvar <= HistoricalVaR(rets, c)
  {
    var v := HistoricalVaR(rets, c);
    var tail := AtOrBelow(rets, v);
    TailHoldsMinimum(rets, c);
    assert forall k :: 0 <= k < |tail| ==> Min(rets) <= tail[k] by {
      forall k | 0 <= k < |tail| ensures Min(rets) <= tail[k] {
        assert tail[k] in rets;
      }
    }
    MeanBounds(tail, Min(rets), v);
    Mean(tail)
  }

  /** A higher confidence level never gives a higher (less severe) historical VaR. */
  lemma HistoricalVaRMonotone(rets: seq<real>, c1: real, c2: real)
    requires |rets| > 0 && ValidConfidence(c1) && ValidConfidence(c2) && c1 <= c2
    ensures HistoricalVaR(rets, c2) <= HistoricalVaR(rets, c1)
  {
    PercentileMonotone(rets, TailPercent(c2), TailPercent(c1));
  }

  // ---------------------------------------------------------------- result keys

  /** The three figures reported per confidence level. */
  datatype Measure = Historical | Parametric | Conditional

  function KeyPrefix(m: Measure): string {
    if m.Conditional? then "CVaR_" else "VaR_"
  }

  function KeySuffix(m: Measure): string {
    match m
    case Historical => "%_historical"
    case Parametric => "%_parametric"
    case Conditional => "%"
  }

  /** `VaR_{k}%_historical`, `VaR_{k}%_parametric` and `CVaR_{k}%`. */
  function Key(k: nat, m: Measure): string
  {
    KeyPrefix(m) + (NatToString(k) + KeySuffix(m))
  }

  predicate AllDigits(d: string) {
    forall k :: 0 <= k < |d| ==> '0' <= d[k] <= '9'
  }

  /** Digits followed by text starting with `%` split apart in one way only. */
  lemma DigitsThenPercent(d1: string, s1: string, d2: string, s2: string)
    requires AllDigits(d1) && AllDigits(d2)
    requires |s1| > 0 && |s2| > 0 && s1[0] == '%' && s2[0] == '%'
    requires d1 + s1 == d2 + s2
    ensures d1 == d2 && s1 == s2
  {
    var t := d1 + s1;
    assert d1 == t[..|d1|] && d2 == t[..|d2|];
    assert s1 == t[|d1|..] && s2 == t[|d2|..];
  }

  /** Two keys are equal only for the same percentage and the same figure. */
  lemma KeyInjective(k1: nat, m1: Measure, k2: nat, m2: Measure)
    requires Key(k1, m1) == Key(k2, m2)
    ensures k1 == k2 && m1 == m2
  {
    var key := Key(k1, m1);
    var p1, p2 := KeyPrefix(m1), KeyPrefix(m2);
    var r1, r2 := NatToString(k1) + KeySuffix(m1), NatToString(k2) + KeySuffix(m2);
    assert key == p1 + r1 && key == p2 + r2;
    assert key[1] == p1[1] && key[1] == p2[1];
    assert p1 == p2;
    assert r1 == key[|p1|..] == r2;
    DigitsThenPercent(NatToString(k1), KeySuffix(m1), NatToString(k2), KeySuffix(m2));
    NatToStringInjective(k1, k2);
  }

  /** The keys a confidence level writes. */
  function LevelKeys(c: real): set<string>
    requires ValidConfidence(c)
  {
    {Key(Percent(c), Historical), Key(Percent(c), Parametric), Key(Percent(c), Conditional)}
  }

  /** Each level writes exactly three distinct keys. */
  lemma LevelKeysDistinct(c: real)
    requires ValidConfidence(c)
    ensures |LevelKeys(c)| == 3
  {
    var k := Percent(c);
    if Key(k, Historical) == Key(k, Parametric) { KeyInjective(k, Historical, k, Parametric); }
    if Key(k, Historical) == Key(k, Conditional) { KeyInjective(k, Historical, k, Conditional); }
    if Key(k, Parametric) == Key(k, Conditional) { KeyInjective(k, Parametric, k, Conditional); }
  }

  // ---------------------------------------------------------------- the VaR table

  /** What `calculate_value_at_risk` ends with: its error map, numpy's exception, or the table. */
  datatype VarResult =
    | VarError(error: string)
    | PercentileRaised(message: string)
    | VarTable(values: map<string, real>)

  /** One iteration of the loop: the three assignments for level `c`. */
  function AddLevel(table: map<string, real>, rets: seq<real>, c: real, stats: Stats): map<string, real>
    requires |rets| > 0 && ValidConfidence(c)
  {
    var k := Percent(c);
    table[Key(k, Historical) := HistoricalVaR(rets, c)]
         [Key(k, Parametric) := ParametricVaR(rets, c, stats)]
         [Key(k, Conditional) := ConditionalVaR(rets, c)]
  }

  /** The loop over `levels`, level by level, stopping at the first level numpy rejects. */
  function Tabulate(rets: seq<real>, levels: seq<real>, stats: Stats): (r: VarResult)
    requires |rets| > 0
    ensures !r.VarError?
    ensures r.PercentileRaised? ==> r.message == PercentileRangeError
    decreases |levels|
  {
    if |levels| == 0 then VarTable(map[])
    else
      var before := Tabulate(rets, levels[..|levels| - 1], stats);
      var c := levels[|levels| - 1];
      if before.PercentileRaised? then before
      else if !ValidConfidence(c) then PercentileRaised(PercentileRangeError)
      else VarTable(AddLevel(before.values, rets, c, stats))
  }

  /** `calculate_value_at_risk(returns, confidence_levels)`. */
  function ValueAtRiskSpec(rets: seq<real>, levels: seq<real>, stats: Stats): (r: VarResult)
    ensures r.VarError? <==> |rets| == 0
  {
    if |rets| == 0 then VarError(NoReturnsError) else Tabulate(rets, levels, stats)
  }

  /**
   * `calculate_value_at_risk`: the error map for empty returns, otherwise one pass
   * over the levels adding three entries per level to `var_results`.
   */
  method ValueAtRisk(rets: seq<real>, levels: seq<real>, stats: Stats) returns (result: VarResult)
    ensures result == ValueAtRiskSpec(rets, levels, stats)
  {
    if |rets| == 0 {
      return VarError(NoReturnsError);
    }
    var varResults: map<string, real> := map[];
    for i := 0 to |levels|
      invariant Tabulate(rets, levels[..i], stats) == VarTable(varResults)
    {
      var confidence := levels[i];
      assert levels[..i + 1][..i] == levels[..i];
      if !ValidConfidence(confidence) {
        RaisedPersists(rets, levels, i + 1, stats);
        assert levels[..|levels|] == levels;
        return PercentileRaised(PercentileRangeError);
      }
      var k := Percent(confidence);
      var historical := HistoricalVaR(rets, confidence);
      var parametric := ParametricVaR(rets, confidence, stats);
      var cvar := ConditionalVaR(rets, confidence);
      varResults := varResults[Key(k, Historical) := historical];
      varResults := varResults[Key(k, Parametric) := parametric];
      varResults := varResults[Key(k, Conditional) := cvar];
    }
    assert levels[..|levels|] == levels;
    return VarTable(varResults);
  }

  /** Once a prefix of the levels has raised, the whole call raises the same exception. */
  lemma {:induction false} RaisedPersists(rets: seq<real>, levels: seq<real>, n: nat, stats: Stats)
    requires |rets| > 0 && n <= |levels|
    requires Tabulate(rets, levels[..n], stats).PercentileRaised?
    ensures Tabulate(rets, levels, stats) == Tabulate(rets, levels[..n], stats)
    decreases |levels|
  {
    if n < |levels| {
      var init := levels[..|levels| - 1];
      assert init[..n] == levels[..n];
      RaisedPersists(rets, init, n, stats);
    } else {
      assert levels[..n] == levels;
    }
  }

  /** Some level outside [0, 1] is exactly when numpy's exception escapes. */
  lemma {:induction false} TabulateRaisesIff(rets: seq<real>, levels: seq<real>, stats: Stats)
    requires |rets| > 0
    ensures Tabulate(rets, levels, stats).PercentileRaised? <==> SomeInvalid(levels)
    decreases |levels|
  {
    if |levels| > 0 {
      TabulateRaisesIff(rets, levels[..|levels| - 1], stats);
      InvalidSnoc(levels);
    }
  }

  /** Some confidence level lies outside [0, 1]. */
  predicate SomeInvalid(levels: seq<real>) {
    exists i :: 0 <= i < |levels| && !ValidConfidence(levels[i])
  }

  /** A sequence of levels holds an invalid one when its front does or its last one is. */
  lemma InvalidSnoc(levels: seq<real>)
    requires |levels| > 0
    ensures SomeInvalid(levels) <==>
              SomeInvalid(levels[..|levels| - 1]) || !ValidConfidence(levels[|levels| - 1])
  {
    var init := levels[..|levels| - 1];
    if SomeInvalid(init) {
      var i :| 0 <= i < |init| && !ValidConfidence(init[i]);
      assert levels[i] == init[i];
    }
    if SomeInvalid(levels) {
      var i :| 0 <= i < |levels| && !ValidConfidence(levels[i]);
      if i < |init| {
        assert init[i] == levels[i];
      }
    }
  }

  /** `levels[i]` is the last level with its percentage: no later level overwrites its keys. */
  predicate LastWithPercent(levels: seq<real>, i: int)
    requires 0 <= i < |levels| && ValidConfidence(levels[i])
  {
    forall j :: i < j < |levels| && ValidConfidence(levels[j]) ==> Percent(levels[j]) != Percent(levels[i])
  }

  /** `key` is one of the keys that level `i` writes. */
  predicate WrittenBy(levels: seq<real>, i: int, key: string)
  {
    0 <= i < |levels| && ValidConfidence(levels[i]) && key in LevelKeys(levels[i])
  }

  /** A table that came out of the loop came out of the loop over all but the last level, plus that level. */
  lemma TabulateStep(rets: seq<real>, levels: seq<real>, stats: Stats)
    requires |rets| > 0 && |levels| > 0 && Tabulate(rets, levels, stats).VarTable?
    ensures Tabulate(rets, levels[..|levels| - 1], stats).VarTable?
    ensures ValidConfidence(levels[|levels| - 1])
    ensures Tabulate(rets, levels, stats).values ==
              AddLevel(Tabulate(rets, levels[..|levels| - 1], stats).values, rets, levels[|levels| - 1], stats)
  {
  }

  /** The three keys of one level are pairwise different. */
  lemma OwnKeysDiffer(k: nat)
    ensures Key(k, Historical) != Key(k, Parametric)
    ensures Key(k, Historical) != Key(k, Conditional)
    ensures Key(k, Parametric) != Key(k, Conditional)
  {
    if Key(k, Historical) == Key(k, Parametric) { KeyInjective(k, Historical, k, Parametric); }
    if Key(k, Historical) == Key(k, Conditional) { KeyInjective(k, Historical, k, Conditional); }
    if Key(k, Parametric) == Key(k, Conditional) { KeyInjective(k, Parametric, k, Conditional); }
  }

  /** One iteration writes the level's three figures under its three keys and keeps every other entry. */
  lemma AddLevelEffect(table: map<string, real>, rets: seq<real>, c: real, stats: Stats)
    requires |rets| > 0 && ValidConfidence(c)
    ensures var t := AddLevel(table, rets, c, stats);
            var k := Percent(c);
            && t.Keys == table.Keys + LevelKeys(c)
            && t[Key(k, Historical)] == HistoricalVaR(rets, c)
            && t[Key(k, Parametric)] == ParametricVaR(rets, c, stats)
            && t[Key(k, Conditional)] == ConditionalVaR(rets, c)
            && forall key :: key in table && key !in LevelKeys(c) ==> t[key] == table[key]
  {
    var k := Percent(c);
    OwnKeysDiffer(k);
    ThreeUpdates(table, Key(k, Historical), Key(k, Parametric), Key(k, Conditional),
                 HistoricalVaR(rets, c), ParametricVaR(rets, c, stats), ConditionalVaR(rets, c));
  }

  /** Three updates under distinct keys add those keys, hold the new values and keep the rest. */
  lemma ThreeUpdates(table: map<string, real>, h: string, p: string, cv: string, a: real, b: real, d: real)
    requires h != p && h != cv && p != cv
    ensures var t := table[h := a][p := b][cv := d];
            && t.Keys == table.Keys + {h, p, cv}
            && t[h] == a && t[p] == b && t[cv] == d
            && forall key :: key in table && key !in {h, p, cv} ==> t[key] == table[key]
  {
  }

  /** The table's keys are exactly the three keys of every level. */
  lemma {:induction false} TabulateKeys(rets: seq<real>, levels: seq<real>, stats: Stats)
    requires |rets| > 0 && Tabulate(rets, levels, stats).VarTable?
    ensures forall key :: key in Tabulate(rets, levels, stats).values <==>
              exists i :: WrittenBy(levels, i, key)
    decreases |levels|
  {
    if |levels| > 0 {
      var init := levels[..|levels| - 1];
      var c := levels[|levels| - 1];
      TabulateStep(rets, levels, stats);
      TabulateKeys(rets, init, stats);
      AddLevelEffect(Tabulate(rets, init, stats).values, rets, c, stats);
      forall key ensures (exists i :: WrittenBy(levels, i, key)) <==>
                           (exists i :: WrittenBy(init, i, key)) || key in LevelKeys(c) {
        WrittenBySnoc(levels, init, key);
      }
    }
  }

  /** A key is written by some level when the front writes it or the last level does. */
  lemma WrittenBySnoc(levels: seq<real>, init: seq<real>, key: string)
    requires |levels| > 0 && init == levels[..|levels| - 1] && ValidConfidence(levels[|levels| - 1])
    ensures (exists i :: WrittenBy(levels, i, key)) <==>
              (exists i :: WrittenBy(init, i, key)) || key in LevelKeys(levels[|levels| - 1])
  {
    var last := |levels| - 1;
    if key in LevelKeys(levels[last]) {
      assert WrittenBy(levels, last, key);
    }
    if exists i :: WrittenBy(init, i, key) {
      var i :| WrittenBy(init, i, key);
      assert WrittenBy(levels, i, key);
    }
    if exists i :: WrittenBy(levels, i, key) {
      var i :| WrittenBy(levels, i, key);
      if i < last {
        assert WrittenBy(init, i, key);
      }
    }
  }

  /** The table holds level `c`'s three figures under its three keys. */
  predicate HoldsLevel(t: map<string, real>, rets: seq<real>, c: real, stats: Stats)
    requires |rets| > 0 && ValidConfidence(c)
  {
    var k := Percent(c);
    && LevelKeys(c) <= t.Keys
    && t[Key(k, Historical)] == HistoricalVaR(rets, c)
    && t[Key(k, Parametric)] == ParametricVaR(rets, c, stats)
    && t[Key(k, Conditional)] == ConditionalVaR(rets, c)
  }

  /** Every level that is last with its percentage leaves its own three figures in the table. */
  lemma {:induction false} TabulateValues(rets: seq<real>, levels: seq<real>, stats: Stats, i: nat)
    requires |rets| > 0 && Tabulate(rets, levels, stats).VarTable?
    requires i < |levels| && ValidConfidence(levels[i]) && LastWithPercent(levels, i)
    ensures HoldsLevel(Tabulate(rets, levels, stats).values, rets, levels[i], stats)
    decreases |levels|
  {
    var last := |levels| - 1;
    var init := levels[..last];
    TabulateStep(rets, levels, stats);
    var before := Tabulate(rets, init, stats).values;
    if i == last {
      AddLevelEffect(before, rets, levels[last], stats);
    } else {
      LastWithPercentInit(levels, i);
      TabulateValues(rets, init, stats, i);
      HoldsLevelKept(before, rets, levels[i], levels[last], stats);
    }
  }

  /** Dropping the last level keeps an earlier level last with its percentage, and its percentage differs from the dropped one's. */
  lemma LastWithPercentInit(levels: seq<real>, i: nat)
    requires i < |levels| - 1 && ValidConfidence(levels[i]) && LastWithPercent(levels, i)
    requires ValidConfidence(levels[|levels| - 1])
    ensures levels[..|levels| - 1][i] == levels[i]
    ensures LastWithPercent(levels[..|levels| - 1], i)
    ensures Percent(levels[i]) != Percent(levels[|levels| - 1])
  {
    var init := levels[..|levels| - 1];
    forall j | i < j < |init| && ValidConfidence(init[j])
      ensures Percent(init[j]) != Percent(init[i])
    {
      assert init[j] == levels[j];
    }
  }

  /** Writing another percentage's keys keeps a level's figures in the table. */
  lemma HoldsLevelKept(table: map<string, real>, rets: seq<real>, c: real, c': real, stats: Stats)
    requires |rets| > 0 && ValidConfidence(c) && ValidConfidence(c')
    requires Percent(c) != Percent(c') && HoldsLevel(table, rets, c, stats)
    ensures HoldsLevel(AddLevel(table, rets, c', stats), rets, c, stats)
  {
    AddLevelEffect(table, rets, c', stats);
    LevelKeysApart(c, c');
  }

  /** Levels with different percentages write disjoint keys. */
  lemma LevelKeysApart(c: real, c': real)
    requires ValidConfidence(c) && ValidConfidence(c') && Percent(c) != Percent(c')
    ensures LevelKeys(c) !! LevelKeys(c')
  {
    var k, k' := Percent(c), Percent(c');
    forall m, m' ensures Key(k, m) != Key(k', m') {
      if Key(k, m) == Key(k', m') { KeyInjective(k, m, k', m'); }
    }
  }

  /** The six keys written under the configured levels 0.95 and 0.99. */
  const DefaultKeys: set<string> :=
    {"VaR_95%_historical", "VaR_95%_parametric", "CVaR_95%",
     "VaR_99%_historical", "VaR_99%_parametric", "CVaR_99%"}

  /** The keys as the configured levels print them. */
  lemma ConfiguredLevelKeys()
    ensures LevelKeys(0.95) == {"VaR_95%_historical", "VaR_95%_parametric", "CVaR_95%"}
    ensures LevelKeys(0.99) == {"VaR_99%_historical", "VaR_99%_parametric", "CVaR_99%"}
  {
    assert Percent(0.95) == 95 && Percent(0.99) == 99;
    KeysAt95();
    KeysAt99();
  }

  lemma KeysAt95()
    ensures Key(95, Historical) == "VaR_95%_historical"
    ensures Key(95, Parametric) == "VaR_95%_parametric"
    ensures Key(95, Conditional) == "CVaR_95%"
  {
    assert NatToString(95) == "95";
  }

  lemma KeysAt99()
    ensures Key(99, Historical) == "VaR_99%_historical"
    ensures Key(99, Parametric) == "VaR_99%_parametric"
    ensures Key(99, Conditional) == "CVaR_99%"
  {
    assert NatToString(99) == "99";
  }

  /** With the configured levels, non-empty returns give a table with exactly the six keys. */
  lemma DefaultTableKeys(rets: seq<real>, stats: Stats)
    requires |rets| > 0
    ensures ValueAtRiskSpec(rets, DefaultSettings.confidenceLevels, stats).VarTable?
    ensures ValueAtRiskSpec(rets, DefaultSettings.confidenceLevels, stats).values.Keys == DefaultKeys
  {
    var levels := DefaultSettings.confidenceLevels;
    TabulateRaisesIff(rets, levels, stats);
    TabulateKeys(rets, levels, stats);
    ConfiguredLevelKeys();
    var t := Tabulate(rets, levels, stats).values;
    forall key ensures key in t <==> key in LevelKeys(0.95) + LevelKeys(0.99) {
      if key in t {
        var i :| WrittenBy(levels, i, key);
      }
      if key in LevelKeys(0.95) {
        assert WrittenBy(levels, 0, key);
      }
      if key in LevelKeys(0.99) {
        assert WrittenBy(levels, 1, key);
      }
    }
  }

  /** With the configured levels, each of the six keys holds its own level's figure. */
  lemma DefaultTableValues(rets: seq<real>, stats: Stats)
    requires |rets| > 0
    ensures var r := ValueAtRiskSpec(rets, DefaultSettings.confidenceLevels, stats);
            && r.VarTable?
            && DefaultKeys <= r.values.Keys
            && r.values["VaR_95%_historical"] == HistoricalVaR(rets, 0.95)
            && r.values["VaR_95%_parametric"] == ParametricVaR(rets, 0.95, stats)
            && r.values["CVaR_95%"] == ConditionalVaR(rets, 0.95)
            && r.values["VaR_99%_historical"] == HistoricalVaR(rets, 0.99)
            && r.values["VaR_99%_parametric"] == ParametricVaR(rets, 0.99, stats)
            && r.values["CVaR_99%"] == ConditionalVaR(rets, 0.99)
  {
    var levels := DefaultSettings.confidenceLevels;
    TabulateRaisesIff(rets, levels, stats);
    assert Percent(0.95) == 95 && Percent(0.99) == 99;
    assert LastWithPercent(levels, 0) && LastWithPercent(levels, 1);
    TabulateValues(rets, levels, stats, 0);
    TabulateValues(rets, levels, stats, 1);
    KeysAt95();
    KeysAt99();
  }

  /** No return lies at or below a threshold under every return. */
  lemma {:induction false} AtOrBelowNone(xs: seq<real>, threshold: real)
    requires forall k :: 0 <= k < |xs| ==> threshold < xs[k]
    ensures AtOrBelow(xs, threshold) == []
  {
    if |xs| > 0 {
      AtOrBelowNone(xs[1..], threshold);
    }
  }

  /** Ten daily returns, already in ascending order. */
  const TenReturns: seq<real> := [-0.05, -0.03, -0.01, 0.00, 0.01, 0.02, 0.03, 0.04, 0.05, 0.10]

  /** On returns already in ascending order, the historical VaR interpolates them directly. */
  lemma SortedHistoricalVaR(rets: seq<real>, c: real)
    requires |rets| > 0 && ValidConfidence(c) && SortedAsc(rets)
    ensures HistoricalVaR(rets, c) == Interpolate(rets, Rank(|rets|, TailPercent(c)))
  {
    SortAscSorted(rets);
  }

  /** On the ten returns, the 95% historical VaR interpolates a 0.45 share of the way from -0.05 to -0.03. */
  lemma TenReturnsVaR(rets: seq<real>)
    requires |rets| == 10 && forall k :: 0 <= k < 10 ==> rets[k] == TenReturns[k]
    ensures HistoricalVaR(rets, 0.95) == -0.041
  {
    assert SortedAsc(rets);
    SortedHistoricalVaR(rets, 0.95);
    var h := Rank(10, TailPercent(0.95));
    assert h == 0.45;
    assert h.Floor == 0;
    assert Interpolate(rets, h) == Lerp(rets[0], rets[1], 0.45);
  }

  /** On the ten returns, only -0.05 lies at or below that VaR, so the 95% CVaR is -0.05. */
  lemma TenReturnsCVaR(rets: seq<real>)
    requires |rets| == 10 && forall k :: 0 <= k < 10 ==> rets[k] == TenReturns[k]
    ensures ConditionalVaR(rets, 0.95) == -0.05
  {
    TenReturnsVaR(rets);
    var tail := rets[1..];
    assert forall k :: 0 <= k < |tail| ==> -0.041 < tail[k];
    AtOrBelowNone(tail, -0.041);
    assert AtOrBelow(rets, -0.041) == [rets[0]] + AtOrBelow(tail, -0.041);
    assert Sum([rets[0]]) == rets[0] + Sum([]);
  }

  // ---------------------------------------------------------------- portfolio

  /** A returns matrix as numpy holds it: rows of equal length. */
  predicate Rectangular(matrix: seq<seq<real>>) {
    forall i :: 0 <= i < |matrix| ==> |matrix[i]| == |matrix[0]|
  }

  /** The column count of a rectangular matrix (0 for a matrix without rows). */
  function Columns(matrix: seq<seq<real>>): nat {
    if |matrix| == 0 then 0 else |matrix[0]|
  }

  function Dot(row: seq<real>, weights: seq<real>): real
    requires |row| == |weights|
  {
    if |row| == 0 then 0.0 else row[0] * weights[0] + Dot(row[1..], weights[1..])
  }

  /** `np.dot(returns_matrix, weights)`: one weighted sum per row, i.e. per day. */
  function PortfolioReturns(matrix: seq<seq<real>>, weights: seq<real>): (r: seq<real>)
    requires Rectangular(matrix) && Columns(matrix) == |weights|
    ensures |r| == |matrix|
  {
    seq(|matrix|, i requires 0 <= i < |matrix| => Dot(matrix[i], weights))
  }

  /** The error numpy raises from `np.dot` when the weights do not match the columns. */
  function ShapeMismatch(rows: nat, cols: nat, w: nat): string {
    "shapes (" + (NatToString(rows) + "," + NatToString(cols) + ") and (" + NatToString(w)
      + ",) not aligned: " + NatToString(cols) + " (dim 1) != " + NatToString(w) + " (dim 0)")
  }

  /** What `calculate_portfolio_metrics` returns. The timestamp field is not modelled. */
  datatype PortfolioResult =
    | PortfolioError(error: string)
    | Metrics(annualReturn: real, annualVolatility: real, sharpeRatio: real, numberOfAssets: nat)

  /** `excess / volatility if volatility > 0 else 0`. */
  function PortfolioSharpe(annualReturn: real, annualVolatility: real, riskFreeRate: real): real {
    if annualVolatility > 0.0 then (annualReturn - riskFreeRate) / annualVolatility else 0.0
  }

  /**
   * `calculate_portfolio_metrics(weights, returns_matrix)` with the configured
   * risk-free rate. It succeeds exactly for non-empty weights matching the columns of
   * a non-empty matrix, with one asset per weight; otherwise it answers the
   * missing-inputs text or numpy's shape message.
   */
  function PortfolioMetrics(weights: seq<real>, matrix: seq<seq<real>>, riskFreeRate: real, stats: Stats)
    : (r: PortfolioResult)
    requires Rectangular(matrix)
    ensures r.Metrics? <==> |weights| > 0 && |matrix| > 0 && Columns(matrix) == |weights|
    ensures r.Metrics? ==> r.numberOfAssets == |weights|
    ensures r.PortfolioError? ==>
              r.error == MissingPortfolioInputs || r.error == ShapeMismatch(|matrix|, Columns(matrix), |weights|)
  {
    assert |matrix| > 0 && Columns(matrix) > 0 ==> |matrix| * Columns(matrix) > 0 by {
      if |matrix| > 0 && Columns(matrix) > 0 {
        PositiveProduct(|matrix|, Columns(matrix));
      }
    }
    if |weights| == 0 || |matrix| * Columns(matrix) == 0 then PortfolioError(MissingPortfolioInputs)
    else if Columns(matrix) != |weights| then PortfolioError(ShapeMismatch(|matrix|, Columns(matrix), |weights|))
    else
      var daily := PortfolioReturns(matrix, weights);
      var volatility := stats.populationStd(daily) * stats.sqrt252;
      var annual := Mean(daily) * TradingDays;
      Metrics(annual, volatility, PortfolioSharpe(annual, volatility, riskFreeRate), |weights|)
  }

  /** Empty weights or an empty matrix give the missing-inputs error and nothing else. */
  lemma PortfolioMissingInputs(weights: seq<real>, matrix: seq<seq<real>>, riskFreeRate: real, stats: Stats)
    requires Rectangular(matrix)
    ensures (PortfolioMetrics(weights, matrix, riskFreeRate, stats) == PortfolioError(MissingPortfolioInputs))
              <==> (|weights| == 0 || |matrix| == 0 || Columns(matrix) == 0)
  {
    if |weights| > 0 && |matrix| > 0 && Columns(matrix) > 0 {
      PositiveProduct(|matrix|, Columns(matrix));
      if Columns(matrix) != |weights| {
        assert ShapeMismatch(|matrix|, Columns(matrix), |weights|) != MissingPortfolioInputs by {
          var msg := ShapeMismatch(|matrix|, Columns(matrix), |weights|);
          assert msg[|msg| - 1] == ')';
          assert MissingPortfolioInputs[|MissingPortfolioInputs| - 1] == 'n';
        }
      }
    }
  }

  lemma PositiveProduct(a: nat, b: nat)
    requires a > 0 && b > 0
    ensures a * b > 0
  {
  }

  /** Non-empty inputs of mismatched width fail with numpy's shape error, and only they do. */
  lemma PortfolioShapeError(weights: seq<real>, matrix: seq<seq<real>>, riskFreeRate: real, stats: Stats)
    requires Rectangular(matrix) && |weights| > 0 && |matrix| > 0 && Columns(matrix) > 0
    ensures PortfolioMetrics(weights, matrix, riskFreeRate, stats).PortfolioError? <==> Columns(matrix) != |weights|
    ensures Columns(matrix) != |weights| ==>
              PortfolioMetrics(weights, matrix, riskFreeRate, stats).error == ShapeMismatch(|matrix|, Columns(matrix), |weights|)
  {
    PositiveProduct(|matrix|, Columns(matrix));
  }

  /**
   * Matching non-empty inputs give the annualised mean and volatility of the daily
   * portfolio series, one asset per weight, and the Sharpe ratio with its fallback.
   */
  lemma PortfolioSuccess(weights: seq<real>, matrix: seq<seq<real>>, riskFreeRate: real, stats: Stats)
    requires Rectangular(matrix) && |matrix| > 0 && |weights| > 0 && Columns(matrix) == |weights|
    ensures var r := PortfolioMetrics(weights, matrix, riskFreeRate, stats);
            && r.Metrics?
            && r.numberOfAssets == |weights|
            && r.annualReturn == Mean(PortfolioReturns(matrix, weights)) * TradingDays
            && r.annualVolatility == stats.populationStd(PortfolioReturns(matrix, weights)) * stats.sqrt252
            && (r.annualVolatility <= 0.0 ==> r.sharpeRatio == 0.0)
            && (r.annualVolatility > 0.0 ==> r.sharpeRatio * r.annualVolatility == r.annualReturn - riskFreeRate)
  {
    PositiveProduct(|matrix|, Columns(matrix));
  }

  /** The Sharpe ratio is positive exactly when volatility is and the return beats the risk-free rate. */
  lemma PortfolioSharpeSign(annualReturn: real, annualVolatility: real, riskFreeRate: real)
    ensures PortfolioSharpe(annualReturn, annualVolatility, riskFreeRate) > 0.0 <==>
              annualVolatility > 0.0 && annualReturn > riskFreeRate
    ensures PortfolioSharpe(annualReturn, annualVolatility, riskFreeRate) == 0.0 <==>
              annualVolatility <= 0.0 || annualReturn == riskFreeRate
  {
    if annualVolatility > 0.0 {
      var s := (annualReturn - riskFreeRate) / annualVolatility;
      assert s * annualVolatility == annualReturn - riskFreeRate;
      SignOfProduct(s, annualVolatility);
    }
  }

  lemma SignOfProduct(s: real, v: real)
    requires v > 0.0
    ensures s > 0.0 <==> s * v > 0.0
    ensures s == 0.0 <==> s * v == 0.0
  {
    if s > 0.0 { NonNegativeProduct(s, v); assert s * v != 0.0; }
    if s < 0.0 { NonNegativeProduct(-s, v); assert (-s) * v != 0.0; }
  }

  /** The weight vector that puts everything on asset `j`. */
  function OneHot(n: nat, j: nat): (w: seq<real>)
    requires j < n
    ensures |w| == n
  {
    seq(n, k requires 0 <= k < n => if k == j then 1.0 else 0.0)
  }

  lemma {:induction false} DotOneHot(row: seq<real>, j: nat)
    requires j < |row|
    ensures Dot(row, OneHot(|row|, j)) == row[j]
  {
    var w := OneHot(|row|, j);
    if j == 0 {
      DotZero(row[1..], w[1..]);
    } else {
      assert w[1..] == OneHot(|row| - 1, j - 1);
      DotOneHot(row[1..], j - 1);
    }
  }

  lemma {:induction false} DotZero(row: seq<real>, w: seq<real>)
    requires |row| == |w| && forall k :: 0 <= k < |w| ==> w[k] == 0.0
    ensures Dot(row, w) == 0.0
  {
    if |row| > 0 {
      DotZero(row[1..], w[1..]);
    }
  }

  /** All the weight on one asset: the portfolio series is that asset's column. */
  lemma PortfolioOneHot(matrix: seq<seq<real>>, j: nat)
    requires Rectangular(matrix) && j < Columns(matrix)
    ensures forall i :: 0 <= i < |matrix| ==>
              PortfolioReturns(matrix, OneHot(Columns(matrix), j))[i] == matrix[i][j]
  {
    forall i | 0 <= i < |matrix|
      ensures PortfolioReturns(matrix, OneHot(Columns(matrix), j))[i] == matrix[i][j]
    {
      DotOneHot(matrix[i], j);
    }
  }

  /**
   * Weights [0.5, 0.5] over two identical columns: the same annualised figures as
   * the single column with weight 1, so the two-asset portfolio is that asset.
   */
  lemma HalfAndHalfOfTwins(column: seq<real>, riskFreeRate: real, stats: Stats)
    requires |column| > 0
    ensures var twins := seq(|column|, i requires 0 <= i < |column| => [column[i], column[i]]);
            var single := seq(|column|, i requires 0 <= i < |column| => [column[i]]);
            var both := PortfolioMetrics([0.5, 0.5], twins, riskFreeRate, stats);
            var one := PortfolioMetrics([1.0], single, riskFreeRate, stats);
            && both.Metrics? && one.Metrics?
            && both.annualReturn == one.annualReturn
            && both.annualVolatility == one.annualVolatility
            && both.sharpeRatio == one.sharpeRatio
            && both.numberOfAssets == 2 && one.numberOfAssets == 1
  {
    var twins := seq(|column|, i requires 0 <= i < |column| => [column[i], column[i]]);
    var single := seq(|column|, i requires 0 <= i < |column| => [column[i]]);
    PositiveProduct(|column|, 2);
    PositiveProduct(|column|, 1);
    assert PortfolioReturns(twins, [0.5, 0.5]) == column by {
      forall i | 0 <= i < |column| ensures PortfolioReturns(twins, [0.5, 0.5])[i] == column[i] {
        assert Dot(twins[i], [0.5, 0.5]) == column[i] * 0.5 + (column[i] * 0.5 + Dot([], []));
      }
    }
    assert PortfolioReturns(single, [1.0]) == column by {
      forall i | 0 <= i < |column| ensures PortfolioReturns(single, [1.0])[i] == column[i] {
        assert Dot(single[i], [1.0]) == column[i] * 1.0 + Dot([], []);
      }
    }
  }

  // ---------------------------------------------------------------- dispatch

  /** The fields of the decoded JSON request that the wrapper reads. */
  datatype Request = Request(
    calculationType: Option<string>,
    returnSeries: Option<seq<real>>,
    weights: Option<seq<real>>,
    returnsMatrix: Option<seq<seq<real>>>)

  /** What `risk_wrapper` serialises. */
  datatype Reply =
    | ErrorReply(error: string)
    | VarReply(values: map<string, real>)
    | PortfolioReply(annualReturn: real, annualVolatility: real, sharpeRatio: real, numberOfAssets: nat)
    /** numpy's `ValueError` for a ragged `returns_matrix`, caught and reported as `{"error": ...}`. */
    | RaggedMatrixReply

  /**
   * `risk_wrapper`: dispatch on `calculation_type`, turning every escaped exception
   * into an error reply. Anything but "VaR" and "portfolio", a missing type
   * included, is refused; a VaR table answers only a VaR request with returns, and
   * portfolio figures only a portfolio request.
   */
  function RiskWrapper(request: Request, settings: Settings, stats: Stats): (reply: Reply)
    ensures request.calculationType != Some("VaR") && request.calculationType != Some("portfolio") ==>
              reply == ErrorReply(UnknownCalculationType)
    ensures reply.VarReply? ==> request.calculationType == Some("VaR") && |request.returnSeries.GetOr([])| > 0
    ensures reply.PortfolioReply? || reply.RaggedMatrixReply? ==> request.calculationType == Some("portfolio")
  {
    match request.calculationType
    case Some("VaR") =>
      (match ValueAtRiskSpec(request.returnSeries.GetOr([]), settings.confidenceLevels, stats)
       case VarError(e) => ErrorReply(e)
       case PercentileRaised(m) => ErrorReply(m)
       case VarTable(values) => VarReply(values))
    case Some("portfolio") =>
      var matrix := request.returnsMatrix.GetOr([]);
      if !Rectangular(matrix) then RaggedMatrixReply
      else
        (match PortfolioMetrics(request.weights.GetOr([]), matrix, settings.riskFreeRate, stats)
         case PortfolioError(e) => ErrorReply(e)
         case Metrics(r, v, s, n) => PortfolioReply(r, v, s, n))
    case _ => ErrorReply(UnknownCalculationType)
  }

  /**
   * A VaR request under the configured levels never reaches numpy's exception: it
   * answers with the empty-returns error exactly when `returns` is missing or empty,
   * and otherwise with the six-key table.
   */
  lemma VarRequestReply(request: Request, stats: Stats)
    requires request.calculationType == Some("VaR")
    ensures var rets := request.returnSeries.GetOr([]);
            var reply := RiskWrapper(request, DefaultSettings, stats);
            && (reply.ErrorReply? <==> |rets| == 0)
            && (reply.ErrorReply? ==> reply.error == NoReturnsError)
            && (reply.VarReply? ==> reply.values.Keys == DefaultKeys)
            && (reply.VarReply? ==> ValueAtRiskSpec(rets, DefaultSettings.confidenceLevels, stats) == VarTable(reply.values))
            && (reply.VarReply? ==>
                  && reply.values["VaR_95%_historical"] == HistoricalVaR(rets, 0.95)
                  && reply.values["VaR_95%_parametric"] == ParametricVaR(rets, 0.95, stats)
                  && reply.values["CVaR_95%"] == ConditionalVaR(rets, 0.95)
                  && reply.values["VaR_99%_historical"] == HistoricalVaR(rets, 0.99)
                  && reply.values["VaR_99%_parametric"] == ParametricVaR(rets, 0.99, stats)
                  && reply.values["CVaR_99%"] == ConditionalVaR(rets, 0.99))
  {
    var rets := request.returnSeries.GetOr([]);
    if |rets| > 0 {
      DefaultTableKeys(rets, stats);
      DefaultTableValues(rets, stats);
    }
  }

  /** A portfolio request with a rectangular matrix answers exactly as `calculate_portfolio_metrics`. */
  lemma PortfolioRequestReply(request: Request, settings: Settings, stats: Stats)
    requires request.calculationType == Some("portfolio")
    requires Rectangular(request.returnsMatrix.GetOr([]))
    ensures var m := PortfolioMetrics(request.weights.GetOr([]), request.returnsMatrix.GetOr([]), settings.riskFreeRate, stats);
            var reply := RiskWrapper(request, settings, stats);
            && (reply.ErrorReply? <==> m.PortfolioError?)
            && (m.PortfolioError? ==> reply.error == m.error)
            && (m.Metrics? ==> reply == PortfolioReply(m.annualReturn, m.annualVolatility, m.sharpeRatio, m.numberOfAssets))
  {
  }
}
