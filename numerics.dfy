/**
 * Arithmetic over series of `real`s shared by the market-data and risk-calculator
 * models: sums and means (the `mean()` of numpy and pandas), minimum and maximum,
 * an ascending sort (the ordering step behind `np.percentile`) and the bundle of
 * numeric routines the model leaves uninterpreted.
 */
module Numerics {

  /**
   * Routines whose numerical content is not modelled: the standard deviation with
   * numpy's default `ddof=0` and with pandas' default `ddof=1`, `np.sqrt(252)`,
   * `scipy.stats.norm.ppf`, and pandas' skewness and excess kurtosis.
   */
  datatype Stats = Stats(
    populationStd: seq<real> -> real,
    sampleStd: seq<real> -> real,
    sqrt252: real,
    normPpf: real -> real,
    skew: seq<real> -> real,
    kurtosis: seq<real> -> real)

  /** Trading days per year, the annualisation factor of the source. */
  const TradingDays: real := 252.0

  function Sum(xs: seq<real>): real
  {
    if |xs| == 0 then 0.0 else xs[0] + Sum(xs[1..])
  }

  function Mean(xs: seq<real>): real
    requires |xs| > 0
  {
    Sum(xs) / |xs| as real
  }

  lemma {:induction false} SumBounds(xs: seq<real>, lo: real, hi: real)
    requires forall k :: 0 <= k < |xs| ==> lo <= xs[k] <= hi
    ensures |xs| as real * lo <= Sum(xs) <= |xs| as real * hi
  {
    if |xs| > 0 {
      SumBounds(xs[1..], lo, hi);
    }
  }

  /** A mean lies within any bounds that every element respects. */
  lemma MeanBounds(xs: seq<real>, lo: real, hi: real)
    requires |xs| > 0
    requires forall k :: 0 <= k < |xs| ==> lo <= xs[k] <= hi
    ensures lo <= Mean(xs) <= hi
  {
    SumBounds(xs, lo, hi);
    var n := |xs| as real;
    DivideBounds(Sum(xs), n, lo, hi);
  }

  lemma DivideBounds(s: real, n: real, lo: real, hi: real)
    requires n > 0.0 && n * lo <= s <= n * hi
    ensures lo <= s / n <= hi
  {
  }

  /** The smallest element (`min()`). */
  function Min(xs: seq<real>): (m: real)
    requires |xs| > 0
    ensures m in xs
    ensures forall k :: 0 <= k < |xs| ==> m <= xs[k]
  {
    if |xs| == 1 then xs[0]
    else
      var rest := Min(xs[1..]);
      if xs[0] <= rest then xs[0] else rest
  }

  /** The largest element (`max()`), taken from the back so that one more element extends it. */
  function Max(xs: seq<real>): (m: real)
    requires |xs| > 0
    ensures m in xs
    ensures forall k :: 0 <= k < |xs| ==> xs[k] <= m
  {
    if |xs| == 1 then xs[0]
    else
      var rest := Max(xs[..|xs| - 1]);
      if rest >= xs[|xs| - 1] then rest else xs[|xs| - 1]
  }

  predicate SortedAsc(xs: seq<real>) {
    forall i, j :: 0 <= i < j < |xs| ==> xs[i] <= xs[j]
  }

  /** Inserts `x` in front of the first element not smaller than it. */
  function InsertAsc(x: real, s: seq<real>): (r: seq<real>)
    requires SortedAsc(s)
    ensures SortedAsc(r)
    ensures multiset(r) == multiset(s) + multiset{x}
  {
    if |s| == 0 || x <= s[0] then [x] + s
    else
      var tail := InsertAsc(x, s[1..]);
      assert s == [s[0]] + s[1..];
      LowerBoundKept(tail, s[1..], x, s[0]);
      AscendingCons(s[0], tail);
      [s[0]] + tail
  }

  /** A value no larger than any element of an ascending series can go in front of it. */
  lemma AscendingCons(h: real, t: seq<real>)
    requires SortedAsc(t) && forall k :: 0 <= k < |t| ==> h <= t[k]
    ensures SortedAsc([h] + t)
  {
    var r := [h] + t;
    forall i, j | 0 <= i < j < |r| ensures r[i] <= r[j] {
      assert r[j] == t[j - 1];
      if i > 0 {
        assert r[i] == t[i - 1];
      }
    }
  }

  /** A lower bound of `u` and of `x` bounds any arrangement of `u` with `x` added. */
  lemma LowerBoundKept(t: seq<real>, u: seq<real>, x: real, b: real)
    requires multiset(t) == multiset(u) + multiset{x}
    requires b <= x && forall k :: 0 <= k < |u| ==> b <= u[k]
    ensures forall k :: 0 <= k < |t| ==> b <= t[k]
  {
    forall k | 0 <= k < |t| ensures b <= t[k] {
      assert t[k] in multiset(t);
      if t[k] != x {
        assert t[k] in multiset(u);
      }
    }
  }

  /** The values of `xs` in ascending order. */
  function SortAsc(xs: seq<real>): (s: seq<real>)
    ensures SortedAsc(s)
    ensures multiset(s) == multiset(xs)
    ensures |s| == |xs|
  {
    if |xs| == 0 then []
    else
      assert xs == [xs[0]] + xs[1..];
      InsertAsc(xs[0], SortAsc(xs[1..]))
  }

  /** The first and last elements of the sorted series are the minimum and maximum. */
  lemma SortAscEnds(xs: seq<real>)
    requires |xs| > 0
    ensures SortAsc(xs)[0] == Min(xs)
    ensures SortAsc(xs)[|xs| - 1] == Max(xs)
  {
    SortedLeast(SortAsc(xs), xs, Min(xs));
    SortedGreatest(SortAsc(xs), xs, Max(xs));
  }

  /** An ascending arrangement of `xs` starts with the least element of `xs`. */
  lemma SortedLeast(s: seq<real>, xs: seq<real>, m: real)
    requires SortedAsc(s) && multiset(s) == multiset(xs) && |s| > 0
    requires m in xs && forall k :: 0 <= k < |xs| ==> m <= xs[k]
    ensures s[0] == m
  {
    assert s[0] in multiset(xs);
    assert m in multiset(s);
  }

  /** An ascending arrangement of `xs` ends with the greatest element of `xs`. */
  lemma SortedGreatest(s: seq<real>, xs: seq<real>, m: real)
    requires SortedAsc(s) && multiset(s) == multiset(xs) && |s| > 0
    requires m in xs && forall k :: 0 <= k < |xs| ==> xs[k] <= m
    ensures s[|s| - 1] == m
  {
    assert s[|s| - 1] in multiset(xs);
    assert m in multiset(s);
  }

  /** An already ascending series is its own sort. */
  lemma {:induction false} SortAscSorted(xs: seq<real>)
    requires SortedAsc(xs)
    ensures SortAsc(xs) == xs
  {
    if |xs| > 0 {
      SortAscSorted(xs[1..]);
      assert xs == [xs[0]] + xs[1..];
    }
  }
}
