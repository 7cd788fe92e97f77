/**
 Wilder's average true range and relative strength index over a bar history.
 `None` stands for the undefined values at the head of a series.
 */
module Indicators {
  import opened Options

  datatype Bar = Bar(high: real, low: real, close: real)

  function Max(a: real, b: real): real { if a >= b then a else b }

  function Abs(a: real): real { if a >= 0.0 then a else 0.0 - a }

  // ---------------------------------------------------------------- Wilder smoothing

  /** x[1] + ... + x[n] */
  function Sum(x: seq<real>, n: nat): real
    requires n < |x|
  {
    if n == 0 then 0.0 else Sum(x, n - 1) + x[n]
  }

  function Mean(x: seq<real>, n: nat): real
    requires 1 <= n < |x|
  {
    Sum(x, n) / n as real
  }

  function Blend(prev: real, next: real, alpha: real): real {
    Weighed(prev, 1.0 - alpha) + Weighed(next, alpha)
  }

  function Weighed(x: real, w: real): real { x * w }

  /** Seeded with the mean of x[1..period], then smoothed with weight 1/period. */
  function Wilder(x: seq<real>, period: nat, i: nat): real
    requires 1 <= period <= i < |x|
  {
    if i == period then Mean(x, period)
    else Blend(Wilder(x, period, i - 1), x[i], 1.0 / period as real)
  }

  /** Wilder's own form: period times the new value is (period - 1) times the
      previous one plus the new sample. */
  lemma WilderRecurrence(x: seq<real>, period: nat, i: nat)
    requires 1 <= period < i < |x|
    ensures Weighed(Wilder(x, period, i), period as real)
         == Weighed(Wilder(x, period, i - 1), period as real - 1.0) + x[i]
  {
    ClearFraction(Wilder(x, period, i - 1), x[i], period as real);
  }

  lemma ClearFraction(prev: real, next: real, p: real)
    requires p > 0.0
    ensures Weighed(Blend(prev, next, 1.0 / p), p) == Weighed(prev, p - 1.0) + next
  {
    var a := 1.0 / p;
    assert a * p == 1.0;
    Expand(prev, next, a, p);
    Regrouped(prev, a, p);
    Regrouped(next, a, p);
  }

  lemma Expand(prev: real, next: real, a: real, p: real)
    ensures (prev * (1.0 - a) + next * a) * p == prev * p - (prev * a) * p + (next * a) * p
  {}

  lemma Regrouped(x: real, a: real, p: real)
    requires a * p == 1.0
    ensures (x * a) * p == x
  {
    assert (x * a) * p == x * (a * p);
  }

  lemma BlendBounds(prev: real, next: real, alpha: real, lo: real, hi: real)
    requires 0.0 <= alpha <= 1.0 && lo <= prev <= hi && lo <= next <= hi
    ensures lo <= Blend(prev, next, alpha) <= hi
  {
    Between(1.0 - alpha, lo, prev, hi);
    Between(alpha, lo, next, hi);
    Parts(lo, alpha);
    Parts(hi, alpha);
    hide Weighed;
  }

  lemma Between(w: real, lo: real, x: real, hi: real)
    requires w >= 0.0 && lo <= x <= hi
    ensures Weighed(lo, w) <= Weighed(x, w) <= Weighed(hi, w)
  {}

  lemma Parts(x: real, w: real)
    ensures Weighed(x, 1.0 - w) + Weighed(x, w) == x
  {}

  lemma AlphaIsUnit(period: nat)
    requires period >= 1
    ensures 0.0 < 1.0 / period as real <= 1.0
    ensures period >= 2 ==> 1.0 / period as real < 1.0
  {}

  lemma {:induction false} SumBounds(x: seq<real>, n: nat, lo: real, hi: real)
    requires n < |x| && forall j :: 1 <= j <= n ==> lo <= x[j] <= hi
    ensures Weighed(lo, n as real) <= Sum(x, n) <= Weighed(hi, n as real)
  {
    if n > 0 {
      SumBounds(x, n - 1, lo, hi);
      OneMore(lo, n);
      OneMore(hi, n);
      hide Weighed;
    }
  }

  lemma OneMore(c: real, n: nat)
    requires n > 0
    ensures Weighed(c, n as real) == Weighed(c, (n - 1) as real) + c
  {}

  lemma Quotient(s: real, n: real, lo: real, hi: real)
    requires n > 0.0 && Weighed(lo, n) <= s <= Weighed(hi, n)
    ensures lo <= s / n <= hi
  {}

  /** A smoothed value lies between any bounds of the samples seen so far. */
  lemma {:induction false} WilderBounds(x: seq<real>, period: nat, i: nat, lo: real, hi: real)
    requires 1 <= period <= i < |x| && forall j :: 1 <= j <= i ==> lo <= x[j] <= hi
    ensures lo <= Wilder(x, period, i) <= hi
  {
    if i == period {
      SumBounds(x, period, lo, hi);
      Quotient(Sum(x, period), period as real, lo, hi);
    } else {
      WilderBounds(x, period, i - 1, lo, hi);
      AlphaIsUnit(period);
      BlendBounds(Wilder(x, period, i - 1), x[i], 1.0 / period as real, lo, hi);
    }
  }

  lemma {:induction false} SumPrefix(x: seq<real>, y: seq<real>, n: nat)
    requires n < |x| && n < |y| && forall j :: 1 <= j <= n ==> x[j] == y[j]
    ensures Sum(x, n) == Sum(y, n)
  {
    if n > 0 { SumPrefix(x, y, n - 1); }
  }

  /** A smoothed value only depends on the samples seen so far. */
  lemma {:induction false} WilderPrefix(x: seq<real>, y: seq<real>, period: nat, i: nat)
    requires 1 <= period <= i < |x| && i < |y| && forall j :: 1 <= j <= i ==> x[j] == y[j]
    ensures Wilder(x, period, i) == Wilder(y, period, i)
  {
    if i == period { SumPrefix(x, y, period); } else { WilderPrefix(x, y, period, i - 1); }
  }

  /** `y` is `x` with every sample multiplied by `k`. */
  ghost predicate Scaled(x: seq<real>, y: seq<real>, k: real) {
    |x| == |y| && forall j :: 0 <= j < |x| ==> y[j] == Weighed(x[j], k)
  }

  lemma WeighedSum(a: real, b: real, k: real)
    ensures Weighed(a + b, k) == Weighed(a, k) + Weighed(b, k)
  {}

  lemma {:induction false} SumScale(x: seq<real>, y: seq<real>, k: real, n: nat)
    requires Scaled(x, y, k) && n < |x|
    ensures Sum(y, n) == Weighed(Sum(x, n), k)
  {
    if n > 0 {
      SumScale(x, y, k, n - 1);
      WeighedSum(Sum(x, n - 1), x[n], k);
      hide Weighed;
    }
  }

  lemma WeighedTwice(x: real, k: real, w: real)
    ensures Weighed(Weighed(x, k), w) == Weighed(Weighed(x, w), k)
  {}

  lemma BlendScale(prev: real, next: real, alpha: real, k: real)
    ensures Blend(Weighed(prev, k), Weighed(next, k), alpha) == Weighed(Blend(prev, next, alpha), k)
  {
    WeighedTwice(prev, k, 1.0 - alpha);
    WeighedTwice(next, k, alpha);
    WeighedSum(Weighed(prev, 1.0 - alpha), Weighed(next, alpha), k);
    hide Weighed;
  }

  lemma QuotientScale(s: real, n: real, k: real)
    requires n > 0.0
    ensures Weighed(s, k) / n == Weighed(s / n, k)
  {
    var q := s / n;
    assert q * n == s;
    Regroup(q, k, n);
    QuotientOf(q * k, n, s * k);
  }

  lemma Regroup(q: real, k: real, n: real)
    ensures (q * k) * n == (q * n) * k
  {}

  lemma QuotientOf(q: real, d: real, n: real)
    requires d > 0.0 && q * d == n
    ensures n / d == q
  {}

  lemma {:induction false} WilderScale(x: seq<real>, y: seq<real>, k: real, period: nat, i: nat)
    requires Scaled(x, y, k) && 1 <= period <= i < |x|
    ensures Wilder(y, period, i) == Weighed(Wilder(x, period, i), k)
  {
    hide Weighed, Blend;
    if i == period {
      SumScale(x, y, k, period);
      QuotientScale(Sum(x, period), period as real, k);
    } else {
      WilderScale(x, y, k, period, i - 1);
      BlendScale(Wilder(x, period, i - 1), x[i], 1.0 / period as real, k);
    }
  }

  // ---------------------------------------------------------------- average true range

  function TrueRange(bars: seq<Bar>, i: nat): (r: real)
    requires 1 <= i < |bars|
  {
    Max(bars[i].high - bars[i].low,
        Max(Abs(bars[i].high - bars[i - 1].close), Abs(bars[i].low - bars[i - 1].close)))
  }

  /** On a proper bar the true range is the span of the bar extended to the
      previous close. */
  lemma TrueRangeIsSpan(bars: seq<Bar>, i: nat)
    requires 1 <= i < |bars| && bars[i].low <= bars[i].high
    ensures var prev := bars[i - 1].close;
      TrueRange(bars, i) == Max(bars[i].high, prev) - (if bars[i].low <= prev then bars[i].low else prev)
  {}

  /** Entry 0 is undefined and never read. */
  function TrueRanges(bars: seq<Bar>): (x: seq<real>)
    ensures |x| == |bars| && forall i :: 1 <= i < |bars| ==> x[i] == TrueRange(bars, i)
  {
    seq(|bars|, i requires 0 <= i < |bars| => if i == 0 then 0.0 else TrueRange(bars, i))
  }

  function AtrSeries(bars: seq<Bar>, period: nat): (s: Option<seq<Option<real>>>)
    requires period >= 1
    ensures s.Some? ==> |s.value| == |bars|
  {
    if |bars| < period + 1 then None else
      Some(seq(|bars|, i requires 0 <= i < |bars| =>
        if i < period then None else Some(Wilder(TrueRanges(bars), period, i))))
  }

  method ComputeAtr(bars: seq<Bar>, period: nat) returns (s: Option<seq<Option<real>>>)
    requires period >= 1
    ensures s == AtrSeries(bars, period)
    ensures s.None? <==> |bars| <= period
    ensures s.Some? ==> |s.value| == |bars| && forall i :: 0 <= i < |bars| ==> (s.value[i].None? <==> i < period)
  {
    if |bars| < period + 1 { return None; }
    var n := |bars|;
    var tr := new real[n](_ => 0.0);
    for i := 1 to n
      invariant forall j :: 0 <= j < i ==> tr[j] == TrueRanges(bars)[j]
    {
      tr[i] := TrueRange(bars, i);
    }
    assert tr[..] == TrueRanges(bars);
    var atr := new Option<real>[n](_ => None);
    var seed := MeanOf(tr, period);
    atr[period] := Some(seed);
    Smooth(tr, atr, period);
    assert atr[..] == AtrSeries(bars, period).value;
    s := Some(atr[..]);
  }

  /** Fills the bars after `period` in place from the seed at `period`. */
  method Smooth(x: array<real>, out: array<Option<real>>, period: nat)
    requires 1 <= period < x.Length == out.Length
    requires out[period] == Some(Mean(x[..], period))
    modifies out
    ensures forall j :: 0 <= j < period ==> out[j] == old(out[j])
    ensures forall j :: period <= j < out.Length ==> out[j] == Some(Wilder(x[..], period, j))
  {
    var alpha := 1.0 / period as real;
    ghost var xs := x[..];
    assert Wilder(xs, period, period) == Mean(xs, period);
    hide Mean, Blend, Wilder, Weighed;
    for i := period + 1 to x.Length
      invariant forall j :: 0 <= j < period ==> out[j] == old(out[j])
      invariant forall j :: period <= j < i ==> out[j] == Some(Wilder(xs, period, j))
    {
      WilderStep(xs, period, i);
      out[i] := Some(Blend(out[i - 1].value, x[i], alpha));
    }
  }

  lemma WilderStep(x: seq<real>, period: nat, i: nat)
    requires 1 <= period < i < |x|
    ensures Wilder(x, period, i) == Blend(Wilder(x, period, i - 1), x[i], 1.0 / period as real)
  {}

  /** No look-ahead: bar i of the series is the last bar of the series of the
      history that ends there. */
  lemma AtrHasNoLookAhead(bars: seq<Bar>, period: nat, i: nat)
    requires 1 <= period <= i < |bars|
    ensures AtrSeries(bars, period).Some? && AtrSeries(bars[..i + 1], period).Some?
    ensures AtrSeries(bars, period).value[i] == AtrSeries(bars[..i + 1], period).value[i]
  {
    WilderPrefix(TrueRanges(bars), TrueRanges(bars[..i + 1]), period, i);
  }

  function Lowest(x: seq<real>, i: nat): (k: nat)
    requires 1 <= i < |x|
    ensures 1 <= k <= i && forall j :: 1 <= j <= i ==> x[k] <= x[j]
  {
    if i == 1 then 1 else
      var k := Lowest(x, i - 1);
      if x[i] < x[k] then i else k
  }

  function Highest(x: seq<real>, i: nat): (k: nat)
    requires 1 <= i < |x|
    ensures 1 <= k <= i && forall j :: 1 <= j <= i ==> x[j] <= x[k]
  {
    if i == 1 then 1 else
      var k := Highest(x, i - 1);
      if x[i] > x[k] then i else k
  }

  /** ATR lies between the smallest and the largest true range seen so far. */
  lemma AtrWithinTrueRanges(bars: seq<Bar>, period: nat, i: nat)
    requires 1 <= period <= i < |bars|
    ensures AtrSeries(bars, period).Some? && AtrSeries(bars, period).value[i].Some?
    ensures exists lo: nat, hi: nat :: Extremes(bars, i, lo, hi)
              && TrueRange(bars, lo) <= AtrSeries(bars, period).value[i].value <= TrueRange(bars, hi)
  {
    var lo, hi := WilderWithinExtremes(bars, period, i);
    hide Wilder, TrueRange, Extremes;
  }

  /** `lo` and `hi` are where the true range was smallest and largest so far. */
  ghost predicate Extremes(bars: seq<Bar>, i: nat, lo: nat, hi: nat) {
    && 1 <= lo <= i < |bars| && 1 <= hi <= i
    && forall j :: 1 <= j <= i ==> TrueRange(bars, lo) <= TrueRange(bars, j) <= TrueRange(bars, hi)
  }

  lemma WilderWithinExtremes(bars: seq<Bar>, period: nat, i: nat) returns (lo: nat, hi: nat)
    requires 1 <= period <= i < |bars|
    ensures Extremes(bars, i, lo, hi)
    ensures TrueRange(bars, lo) <= Wilder(TrueRanges(bars), period, i) <= TrueRange(bars, hi)
  {
    var x := TrueRanges(bars);
    lo, hi := Lowest(x, i), Highest(x, i);
    WilderBounds(x, period, i, x[lo], x[hi]);
    hide Wilder, TrueRange, TrueRanges, Lowest, Highest;
    forall j | 1 <= j <= i ensures TrueRange(bars, lo) <= TrueRange(bars, j) <= TrueRange(bars, hi) {
      assert x[j] == TrueRange(bars, j);
    }
  }

  // ---------------------------------------------------------------- relative strength

  function Gains(closes: seq<real>): (x: seq<real>)
    ensures |x| == |closes|
    ensures forall i :: 1 <= i < |closes| ==> x[i] == if closes[i] > closes[i - 1] then closes[i] - closes[i - 1] else 0.0
  {
    seq(|closes|, i requires 0 <= i < |closes| =>
      if i > 0 && closes[i] > closes[i - 1] then closes[i] - closes[i - 1] else 0.0)
  }

  function Losses(closes: seq<real>): (x: seq<real>)
    ensures |x| == |closes|
    ensures forall i :: 1 <= i < |closes| ==> x[i] == if closes[i] < closes[i - 1] then closes[i - 1] - closes[i] else 0.0
  {
    seq(|closes|, i requires 0 <= i < |closes| =>
      if i > 0 && closes[i] < closes[i - 1] then closes[i - 1] - closes[i] else 0.0)
  }

  function RsiFromAvgs(gain: real, loss: real): real
    requires gain >= 0.0 && loss >= 0.0
  {
    if loss == 0.0 then 100.0 else
      var rs := gain / loss;
      RatioIsNonNegative(gain, loss);
      100.0 - 100.0 / (1.0 + rs)
  }

  lemma RatioIsNonNegative(a: real, b: real)
    requires a >= 0.0 && b > 0.0
    ensures a / b >= 0.0
  {}

  /** The index is the gains' share of all movement; 100 when nothing fell. */
  lemma RsiIsShareOfGains(gain: real, loss: real)
    requires gain >= 0.0 && loss >= 0.0
    ensures 0.0 <= RsiFromAvgs(gain, loss) <= 100.0
    ensures RsiFromAvgs(gain, loss) == 100.0 <==> loss == 0.0
    ensures gain + loss > 0.0 ==> RsiFromAvgs(gain, loss) * (gain + loss) == 100.0 * gain
  {
    if loss > 0.0 {
      RatioIsNonNegative(gain, loss);
      var rs := gain / loss;
      var q := 100.0 / (1.0 + rs);
      assert rs * loss == gain;
      assert q * (1.0 + rs) == 100.0;
      ShareAlgebra(q, rs, gain, loss);
    }
  }

  lemma Signs(q: real, n: real)
    requires n > 0.0 && q * n > 0.0
    ensures q > 0.0
  {}

  lemma ShareAlgebra(q: real, rs: real, gain: real, loss: real)
    requires rs >= 0.0 && loss > 0.0 && rs * loss == gain && q * (1.0 + rs) == 100.0
    ensures 0.0 < q <= 100.0
    ensures (100.0 - q) * (gain + loss) == 100.0 * gain
  {
    assert gain + loss == (1.0 + rs) * loss;
    assert q * (gain + loss) == q * ((1.0 + rs) * loss) == (q * (1.0 + rs)) * loss;
    assert q > 0.0 by {
      Signs(q, 1.0 + rs);
    }
    assert q * 1.0 <= q * (1.0 + rs);
  }

  ghost predicate NonNegative(x: seq<real>) {
    forall j :: 1 <= j < |x| ==> x[j] >= 0.0
  }

  lemma AverageIsNonNegative(x: seq<real>, period: nat, i: nat)
    requires 1 <= period <= i < |x| && NonNegative(x)
    ensures Wilder(x, period, i) >= 0.0
  {
    WilderBounds(x, period, i, 0.0, x[Highest(x, i)]);
  }

  function RsiOf(gains: seq<real>, losses: seq<real>, period: nat, i: nat): real
    requires 1 <= period <= i < |gains| == |losses| && NonNegative(gains) && NonNegative(losses)
  {
    AverageIsNonNegative(gains, period, i);
    AverageIsNonNegative(losses, period, i);
    RsiFromAvgs(Wilder(gains, period, i), Wilder(losses, period, i))
  }

  function RsiAt(closes: seq<real>, period: nat, i: nat): real
    requires 1 <= period <= i < |closes|
  {
    RsiOf(Gains(closes), Losses(closes), period, i)
  }

  function RsiSeries(closes: seq<real>, period: nat): (s: Option<seq<Option<real>>>)
    requires period >= 1
    ensures s.Some? ==> |s.value| == |closes|
  {
    if |closes| < period + 1 then None else
      Some(seq(|closes|, i requires 0 <= i < |closes| =>
        if i < period then None else Some(RsiAt(closes, period, i))))
  }

  lemma FlatAverage(x: seq<real>, period: nat, i: nat)
    requires 1 <= period <= i < |x| && forall j :: 1 <= j <= i ==> x[j] == 0.0
    ensures Wilder(x, period, i) == 0.0
  {
    WilderBounds(x, period, i, 0.0, 0.0);
  }

  lemma PositiveAverage(x: seq<real>, period: nat, i: nat)
    requires 1 <= period <= i < |x| && forall j :: 1 <= j <= i ==> x[j] > 0.0
    ensures Wilder(x, period, i) > 0.0
  {
    WilderBounds(x, period, i, x[Lowest(x, i)], x[Highest(x, i)]);
  }

  /** A path that only rises has index 100, one that only falls 0. */
  lemma RsiOfOneWay(closes: seq<real>, period: nat, i: nat)
    requires 1 <= period <= i < |closes|
    ensures (forall j :: 1 <= j <= i ==> closes[j] > closes[j - 1]) ==> RsiAt(closes, period, i) == 100.0
    ensures (forall j :: 1 <= j <= i ==> closes[j] < closes[j - 1]) ==> RsiAt(closes, period, i) == 0.0
  {
    var g, l := Gains(closes), Losses(closes);
    AverageIsNonNegative(g, period, i);
    AverageIsNonNegative(l, period, i);
    if forall j :: 1 <= j <= i ==> closes[j] > closes[j - 1] {
      FlatAverage(l, period, i);
    }
    if forall j :: 1 <= j <= i ==> closes[j] < closes[j - 1] {
      FlatAverage(g, period, i);
      PositiveAverage(l, period, i);
      NoGainIsZero(Wilder(l, period, i));
    }
  }

  lemma NoGainIsZero(loss: real)
    requires loss > 0.0
    ensures RsiFromAvgs(0.0, loss) == 0.0
  {
    RsiIsShareOfGains(0.0, loss);
  }

  method SplitChanges(closes: seq<real>) returns (gains: array<real>, losses: array<real>)
    requires closes != []
    ensures gains[..] == Gains(closes) && losses[..] == Losses(closes)
  {
    var n := |closes|;
    gains, losses := new real[n](_ => 0.0), new real[n](_ => 0.0);
    for i := 1 to n
      invariant forall j :: 0 <= j < i && j < n ==> gains[j] == Gains(closes)[j] && losses[j] == Losses(closes)[j]
    {
      var change := closes[i] - closes[i - 1];
      gains[i] := if change > 0.0 then change else 0.0;
      losses[i] := if change < 0.0 then 0.0 - change else 0.0;
    }
  }

  method MeanOf(x: array<real>, n: nat) returns (m: real)
    requires 1 <= n < x.Length
    ensures m == Mean(x[..], n)
  {
    var sum := 0.0;
    for i := 1 to n + 1
      invariant sum == Sum(x[..], i - 1)
    {
      sum := sum + x[i];
    }
    m := sum / n as real;
  }

  method ComputeRsi(closes: seq<real>, period: nat) returns (s: Option<seq<Option<real>>>)
    requires period >= 1
    ensures s == RsiSeries(closes, period)
    ensures s.None? <==> |closes| <= period
    ensures s.Some? ==> |s.value| == |closes| && forall i :: 0 <= i < |closes| ==> (s.value[i].None? <==> i < period)
  {
    if |closes| < period + 1 { return None; }
    var n := |closes|;
    var gains, losses := SplitChanges(closes);
    var rsi := new Option<real>[n](_ => None);
    FillRsi(gains, losses, rsi, period);
    assert rsi[..] == RsiSeries(closes, period).value;
    s := Some(rsi[..]);
  }

  /** Fills `rsi` in place from bar `period` on, carrying the two averages. */
  method FillRsi(gains: array<real>, losses: array<real>, rsi: array<Option<real>>, period: nat)
    requires 1 <= period < gains.Length == losses.Length == rsi.Length
    requires NonNegative(gains[..]) && NonNegative(losses[..])
    modifies rsi
    ensures forall j :: 0 <= j < period ==> rsi[j] == old(rsi[j])
    ensures forall j :: period <= j < rsi.Length ==> rsi[j] == Some(RsiOf(gains[..], losses[..], period, j))
  {
    var avgGain := MeanOf(gains, period);
    var avgLoss := MeanOf(losses, period);
    var alpha := 1.0 / period as real;
    ghost var g, l := gains[..], losses[..];
    AverageIsNonNegative(g, period, period);
    AverageIsNonNegative(l, period, period);
    rsi[period] := Some(RsiFromAvgs(avgGain, avgLoss));
    assert rsi[period] == Some(RsiOf(g, l, period, period));
    hide RsiFromAvgs, Wilder, Blend, Mean, NonNegative;
    for i := period + 1 to gains.Length
      invariant avgGain == Wilder(g, period, i - 1) && avgLoss == Wilder(l, period, i - 1)
      invariant forall j :: 0 <= j < period ==> rsi[j] == old(rsi[j])
      invariant forall j :: period <= j < i ==> rsi[j] == Some(RsiOf(g, l, period, j))
    {
      WilderStep(g, period, i);
      WilderStep(l, period, i);
      avgGain := Blend(avgGain, gains[i], alpha);
      avgLoss := Blend(avgLoss, losses[i], alpha);
      AverageIsNonNegative(g, period, i);
      AverageIsNonNegative(l, period, i);
      rsi[i] := Some(RsiFromAvgs(avgGain, avgLoss));
    }
  }

  /** No look-ahead, and the index stays in [0, 100]. */
  lemma RsiHasNoLookAhead(closes: seq<real>, period: nat, i: nat)
    requires 1 <= period <= i < |closes|
    ensures RsiSeries(closes, period).Some? && RsiSeries(closes[..i + 1], period).Some?
    ensures RsiSeries(closes, period).value[i] == RsiSeries(closes[..i + 1], period).value[i]
    ensures RsiSeries(closes, period).value[i].Some? && 0.0 <= RsiSeries(closes, period).value[i].value <= 100.0
  {
    WilderPrefix(Gains(closes), Gains(closes[..i + 1]), period, i);
    WilderPrefix(Losses(closes), Losses(closes[..i + 1]), period, i);
    AverageIsNonNegative(Gains(closes), period, i);
    AverageIsNonNegative(Losses(closes), period, i);
    RsiIsShareOfGains(Wilder(Gains(closes), period, i), Wilder(Losses(closes), period, i));
  }

  lemma ChangeScales(k: real, a: real, b: real)
    requires k > 0.0
    ensures Weighed(a, k) > Weighed(b, k) <==> a > b
    ensures Weighed(a, k) - Weighed(b, k) == Weighed(a - b, k)
  {
    WeighedSum(a - b, b, k);
    if a > b { Positive(a - b, k); } else { NonPositive(a - b, k); }
    hide Weighed;
  }

  lemma Positive(x: real, k: real)
    requires k > 0.0 && x > 0.0
    ensures Weighed(x, k) > 0.0
  {}

  lemma NonPositive(x: real, k: real)
    requires k > 0.0 && x <= 0.0
    ensures Weighed(x, k) <= 0.0
  {}

  lemma ShareScales(k: real, gain: real, loss: real)
    requires k > 0.0 && gain >= 0.0 && loss >= 0.0
    ensures Weighed(gain, k) >= 0.0 && Weighed(loss, k) >= 0.0
    ensures RsiFromAvgs(Weighed(gain, k), Weighed(loss, k)) == RsiFromAvgs(gain, loss)
  {
    NonPositive(0.0 - gain, k);
    if loss > 0.0 {
      Positive(loss, k);
      var rs := gain / loss;
      assert rs * loss == gain;
      Reassociate(rs, loss, k);
      QuotientOf(rs, loss * k, gain * k);
    }
  }

  lemma Reassociate(q: real, d: real, k: real)
    ensures q * (d * k) == (q * d) * k
  {}

  /** Scaling every price by a positive constant leaves the index unchanged. */
  lemma RsiIsScaleFree(closes: seq<real>, scaled: seq<real>, k: real, period: nat, i: nat)
    requires 1 <= period <= i < |closes| && k > 0.0 && Scaled(closes, scaled, k)
    ensures RsiAt(scaled, period, i) == RsiAt(closes, period, i)
  {
    ChangesScale(closes, scaled, k);
    WilderScale(Gains(closes), Gains(scaled), k, period, i);
    WilderScale(Losses(closes), Losses(scaled), k, period, i);
    AverageIsNonNegative(Gains(closes), period, i);
    AverageIsNonNegative(Losses(closes), period, i);
    hide RsiFromAvgs, Wilder, Weighed;
    ShareScales(k, Wilder(Gains(closes), period, i), Wilder(Losses(closes), period, i));
  }

  lemma ChangesScale(closes: seq<real>, scaled: seq<real>, k: real)
    requires k > 0.0 && Scaled(closes, scaled, k)
    ensures Scaled(Gains(closes), Gains(scaled), k) && Scaled(Losses(closes), Losses(scaled), k)
  {
    NothingScales(k);
    hide Weighed;
    forall j | 1 <= j < |closes|
      ensures Gains(scaled)[j] == Weighed(Gains(closes)[j], k) && Losses(scaled)[j] == Weighed(Losses(closes)[j], k)
    {
      ChangeScales(k, closes[j], closes[j - 1]);
      ChangeScales(k, closes[j - 1], closes[j]);
    }
  }

  lemma NothingScales(k: real)
    ensures Weighed(0.0, k) == 0.0
  {}

  /** Turning the price path upside down turns the index into its complement,
      unless nothing moved, when both are 100. */
  lemma RsiOfReflection(closes: seq<real>, mirrored: seq<real>, c: real, period: nat, i: nat)
    requires 1 <= period <= i < |closes| == |mirrored|
    requires forall j :: 0 <= j < |closes| ==> mirrored[j] == c - closes[j]
    ensures var moved := Wilder(Gains(closes), period, i) + Wilder(Losses(closes), period, i) > 0.0;
      RsiAt(mirrored, period, i) == if moved then 100.0 - RsiAt(closes, period, i) else 100.0
  {
    MirroredAverages(closes, mirrored, c, period, i);
    AverageIsNonNegative(Gains(closes), period, i);
    AverageIsNonNegative(Losses(closes), period, i);
    var g, l := Wilder(Gains(closes), period, i), Wilder(Losses(closes), period, i);
    assert RsiAt(closes, period, i) == RsiFromAvgs(g, l) && RsiAt(mirrored, period, i) == RsiFromAvgs(l, g);
    SharesAreComplements(g, l);
  }

  lemma SharesAreComplements(g: real, l: real)
    requires g >= 0.0 && l >= 0.0
    ensures RsiFromAvgs(l, g) == if g + l > 0.0 then 100.0 - RsiFromAvgs(g, l) else 100.0
  {
    RsiIsShareOfGains(g, l);
    RsiIsShareOfGains(l, g);
    if g + l > 0.0 { Complement(RsiFromAvgs(g, l), RsiFromAvgs(l, g), g, l); }
  }

  lemma MirroredAverages(closes: seq<real>, mirrored: seq<real>, c: real, period: nat, i: nat)
    requires 1 <= period <= i < |closes| == |mirrored|
    requires forall j :: 0 <= j < |closes| ==> mirrored[j] == c - closes[j]
    ensures Wilder(Gains(mirrored), period, i) == Wilder(Losses(closes), period, i)
    ensures Wilder(Losses(mirrored), period, i) == Wilder(Gains(closes), period, i)
  {
    WilderPrefix(Gains(mirrored), Losses(closes), period, i);
    WilderPrefix(Losses(mirrored), Gains(closes), period, i);
  }

  lemma Complement(p: real, q: real, g: real, l: real)
    requires g + l > 0.0 && p * (g + l) == 100.0 * g && q * (g + l) == 100.0 * l
    ensures q == 100.0 - p
  {
    var n := g + l;
    SameQuotient(p, 100.0 * g, n);
    SameQuotient(q, 100.0 * l, n);
    SameQuotient(100.0 - p, 100.0 * l, n) by { Remainder(p, g, l, n); }
  }

  lemma Remainder(p: real, g: real, l: real, n: real)
    requires n == g + l && p * n == 100.0 * g
    ensures (100.0 - p) * n == 100.0 * l
  {}

  lemma SameQuotient(p: real, x: real, n: real)
    requires n > 0.0 && p * n == x
    ensures p == x / n
  {}

}
