/** Wilder smoothing, ADX/DI, RSI and R-squared (src/spy_der/features/indicators.py). */
module Indicators {
  import opened Options
  import opened RealSeqs

  // ----- Wilder's running moving average -----

  /** The average at index i >= period - 1: the mean of the first period values, then smoothed. */
  function Rma(values: seq<real>, period: nat, i: nat): real
    requires period >= 1 && period - 1 <= i < |values|
  {
    if i == period - 1 then Sum(values[..period]) / period as real
    else Smooth(Rma(values, period, i - 1), values[i], period)
  }

  function Smooth(prev: real, value: real, period: nat): real
    requires period >= 1
  {
    (prev * (period - 1) as real + value) / period as real
  }

  function RmaAt(values: seq<real>, period: int, i: nat): Option<real>
    requires i < |values|
  {
    if period < 1 || i < period - 1 then None else Some(Rma(values, period, i))
  }

  /** NaN (None) until period samples exist. */
  method WilderRma(values: seq<real>, period: int) returns (out: seq<Option<real>>)
    ensures |out| == |values|
    ensures forall i :: 0 <= i < |out| ==> out[i] == RmaAt(values, period, i)
  {
    var buffer := new Option<real>[|values|](_ => None);
    if |values| < period || period < 1 {
      return buffer[..];
    }
    buffer[period - 1] := Some(Sum(values[..period]) / period as real);
    for i := period to |values|
      invariant forall j :: 0 <= j < i ==> buffer[j] == RmaAt(values, period, j)
      invariant forall j :: i <= j < |values| ==> buffer[j] == None
    {
      buffer[i] := Some(Smooth(buffer[i - 1].value, values[i], period));
    }
    return buffer[..];
  }

  ghost predicate NonNegative(s: seq<real>) { forall i :: 0 <= i < |s| ==> s[i] >= 0.0 }

  lemma {:induction false} SumNonNegative(s: seq<real>)
    requires NonNegative(s)
    ensures Sum(s) >= 0.0
  {
    if s != [] { SumNonNegative(s[..|s| - 1]); }
  }

  lemma {:induction false} SumLinear(a: seq<real>, b: seq<real>, c: seq<real>, ka: real, kb: real)
    requires |a| == |b| == |c| && forall i :: 0 <= i < |a| ==> c[i] == ka * a[i] + kb * b[i]
    ensures Sum(c) == ka * Sum(a) + kb * Sum(b)
  {
    if a != [] {
      var n := |a| - 1;
      SumLinear(a[..n], b[..n], c[..n], ka, kb);
      assert ka * Sum(a) == ka * Sum(a[..n]) + ka * a[n];
      assert kb * Sum(b) == kb * Sum(b[..n]) + kb * b[n];
    }
  }

  /** The recurrence is linear ... */
  lemma {:induction false} RmaLinear(a: seq<real>, b: seq<real>, c: seq<real>, ka: real, kb: real, period: nat, i: nat)
    requires |a| == |b| == |c| && forall j :: 0 <= j < |a| ==> c[j] == ka * a[j] + kb * b[j]
    requires period >= 1 && period - 1 <= i < |a|
    ensures Rma(c, period, i) == ka * Rma(a, period, i) + kb * Rma(b, period, i)
  {
    hide Smooth, Sum;
    if i == period - 1 {
      SumLinear(a[..period], b[..period], c[..period], ka, kb);
      DividesLinear(Sum(a[..period]), Sum(b[..period]), Sum(c[..period]), ka, kb, period as real);
    } else {
      RmaLinear(a, b, c, ka, kb, period, i - 1);
      SmoothLinear(Rma(a, period, i - 1), Rma(b, period, i - 1), Rma(c, period, i - 1), a[i], b[i], c[i], ka, kb,
                   period);
    }
  }

  lemma DividesLinear(x: real, y: real, z: real, ka: real, kb: real, p: real)
    requires p != 0.0 && z == ka * x + kb * y
    ensures z / p == ka * (x / p) + kb * (y / p)
  {
    DivideLinear(x, y, ka, kb, p);
  }

  lemma SmoothLinear(x: real, y: real, z: real, v: real, w: real, u: real, ka: real, kb: real, period: nat)
    requires period >= 1 && z == ka * x + kb * y && u == ka * v + kb * w
    ensures Smooth(z, u, period) == ka * Smooth(x, v, period) + kb * Smooth(y, w, period)
  {
    var q := (period - 1) as real;
    assert z * q + u == ka * (x * q + v) + kb * (y * q + w);
    DivideLinear(x * q + v, y * q + w, ka, kb, period as real);
  }

  /** ... and keeps signs, hence order. */
  lemma {:induction false} RmaNonNegative(a: seq<real>, period: nat, i: nat)
    requires NonNegative(a) && period >= 1 && period - 1 <= i < |a|
    ensures Rma(a, period, i) >= 0.0
  {
    if i == period - 1 {
      SumNonNegative(a[..period]);
      DivideSign(Sum(a[..period]), period as real);
    } else {
      RmaNonNegative(a, period, i - 1);
      ProductSign(Rma(a, period, i - 1), (period - 1) as real);
      DivideSign(Rma(a, period, i - 1) * (period - 1) as real + a[i], period as real);
    }
  }

  lemma DivideSign(x: real, d: real)
    requires x >= 0.0 && d > 0.0
    ensures x / d >= 0.0
  {
    var q := x / d;
    assert q * d == x;
    ProductSign(d, q);
  }

  lemma RmaMonotone(a: seq<real>, b: seq<real>, period: nat, i: nat)
    requires |a| == |b| && forall j :: 0 <= j < |a| ==> a[j] <= b[j]
    requires period >= 1 && period - 1 <= i < |a|
    ensures Rma(a, period, i) <= Rma(b, period, i)
  {
    var gap := seq(|a|, j requires 0 <= j < |a| => b[j] - a[j]);
    RmaLinear(b, a, gap, 1.0, -1.0, period, i);
    RmaNonNegative(gap, period, i);
  }

  // ----- Directional movement -----

  /** True range of bars 1, 2, ...: it needs a previous close. */
  function TrueRange(high: seq<real>, low: seq<real>, close: seq<real>): (r: seq<real>)
    requires |high| == |low| == |close| >= 1
    ensures |r| == |close| - 1
  {
    seq(|close| - 1, k requires 0 <= k < |close| - 1 =>
      Max(Max(high[k + 1] - low[k + 1], Abs(high[k + 1] - close[k])), Abs(low[k + 1] - close[k])))
  }

  function PlusMove(high: seq<real>, low: seq<real>): (r: seq<real>)
    requires |high| == |low| >= 1
    ensures |r| == |high| - 1
  {
    seq(|high| - 1, k requires 0 <= k < |high| - 1 =>
      var up, down := high[k + 1] - high[k], low[k] - low[k + 1];
      if up > down && up > 0.0 then up else 0.0)
  }

  function MinusMove(high: seq<real>, low: seq<real>): (r: seq<real>)
    requires |high| == |low| >= 1
    ensures |r| == |high| - 1
  {
    seq(|high| - 1, k requires 0 <= k < |high| - 1 =>
      var up, down := high[k + 1] - high[k], low[k] - low[k + 1];
      if down > up && down > 0.0 then down else 0.0)
  }

  /** 100 * move / range; undefined (NaN) over a zero range. */
  function Share(move: real, range: real): Option<real> {
    if range == 0.0 then None else Some(100.0 * move / range)
  }

  function DiAt(move: seq<real>, range: seq<real>, period: nat, i: nat): Option<real>
    requires |move| == |range| && period >= 1 && i < |move|
  {
    if i < period - 1 then None else Share(Rma(move, period, i), Rma(range, period, i))
  }

  /** The directional index of two DI values, a NaN already replaced by 0. */
  function Dx(plus: Option<real>, minus: Option<real>): real {
    if plus.None? || minus.None? || plus.value + minus.value == 0.0 then 0.0
    else 100.0 * Abs(plus.value - minus.value) / (plus.value + minus.value)
  }

  function DxSeries(plus: seq<real>, minus: seq<real>, range: seq<real>, period: nat): (r: seq<real>)
    requires |plus| == |minus| == |range| && period >= 1
    ensures |r| == |range|
  {
    seq(|range|, i requires 0 <= i < |range| => Dx(DiAt(plus, range, period, i), DiAt(minus, range, period, i)))
  }

  datatype Directional = Directional(adx: Option<real>, plusDi: Option<real>, minusDi: Option<real>)

  function AdxDi(high: seq<real>, low: seq<real>, close: seq<real>, period: nat): Directional
    requires |high| == |low| == |close| && period >= 1
  {
    if |close| < 2 * period then Directional(None, None, None)
    else
      var range, plus, minus := TrueRange(high, low, close), PlusMove(high, low), MinusMove(high, low);
      var last := |range| - 1;
      Directional(RmaAt(DxSeries(plus, minus, range, period), period, last),
                  DiAt(plus, range, period, last),
                  DiAt(minus, range, period, last))
  }

  ghost predicate ValidBars(high: seq<real>, low: seq<real>, close: seq<real>)
    requires |high| == |low| == |close|
  {
    forall k :: 0 <= k < |close| ==> low[k] <= close[k] <= high[k]
  }

  /** On bars that hold their close, the directional movements together never exceed the true range. */
  lemma MoveWithinRange(high: seq<real>, low: seq<real>, close: seq<real>, k: nat)
    requires |high| == |low| == |close| && ValidBars(high, low, close) && k + 1 < |close|
    ensures PlusMove(high, low)[k] + MinusMove(high, low)[k] <= TrueRange(high, low, close)[k]
  {
  }

  lemma MovesNonNegative(high: seq<real>, low: seq<real>, close: seq<real>)
    requires |high| == |low| == |close| >= 1
    ensures NonNegative(PlusMove(high, low)) && NonNegative(MinusMove(high, low))
      && NonNegative(TrueRange(high, low, close))
  {
  }

  lemma ShareBounds(p: real, m: real, range: real)
    requires p >= 0.0 && m >= 0.0 && range >= 0.0 && range != 0.0
    ensures Share(p, range).value >= 0.0 && Share(m, range).value >= 0.0
    ensures p + m <= range ==> Share(p, range).value + Share(m, range).value <= 100.0
  {
    DivideSign(100.0 * p, range);
    DivideSign(100.0 * m, range);
    if p + m <= range {
      var a, b := Share(p, range).value, Share(m, range).value;
      QuotientTimes(100.0 * p, range);
      QuotientTimes(100.0 * m, range);
      assert range * (100.0 - a - b) == 100.0 * (range - p - m);
      ProductSign(range, 100.0 - a - b);
    }
  }

  /** Smoothing carries the bar-by-bar bound to the indicators: both DI are non-negative, and on valid
      bars they add up to at most 100. */
  lemma DiBounds(high: seq<real>, low: seq<real>, close: seq<real>, period: nat, i: nat)
    requires |high| == |low| == |close| && period >= 1 && period - 1 <= i < |close| - 1
    ensures var range := TrueRange(high, low, close);
      var plus, minus := DiAt(PlusMove(high, low), range, period, i), DiAt(MinusMove(high, low), range, period, i);
      && (plus.Some? <==> minus.Some?)
      && (plus.Some? ==> plus.value >= 0.0 && minus.value >= 0.0)
      && (plus.Some? && ValidBars(high, low, close) ==> plus.value + minus.value <= 100.0)
  {
    hide Share, Rma;
    var range, plus, minus := TrueRange(high, low, close), PlusMove(high, low), MinusMove(high, low);
    MovesNonNegative(high, low, close);
    RmaNonNegative(plus, period, i);
    RmaNonNegative(minus, period, i);
    RmaNonNegative(range, period, i);
    if ValidBars(high, low, close) {
      MovesSmoothedWithinRange(high, low, close, period, i);
    }
    ShareDefined(Rma(plus, period, i), Rma(range, period, i));
    ShareDefined(Rma(minus, period, i), Rma(range, period, i));
    if Rma(range, period, i) != 0.0 {
      ShareBounds(Rma(plus, period, i), Rma(minus, period, i), Rma(range, period, i));
    }
  }

  lemma ShareDefined(x: real, range: real)
    ensures Share(x, range).Some? <==> range != 0.0
  {
  }

  lemma MovesSmoothedWithinRange(high: seq<real>, low: seq<real>, close: seq<real>, period: nat, i: nat)
    requires |high| == |low| == |close| && ValidBars(high, low, close) && period >= 1 && period - 1 <= i < |close| - 1
    ensures Rma(PlusMove(high, low), period, i) + Rma(MinusMove(high, low), period, i)
      <= Rma(TrueRange(high, low, close), period, i)
  {
    hide Rma, PlusMove, MinusMove, TrueRange;
    var range, plus, minus := TrueRange(high, low, close), PlusMove(high, low), MinusMove(high, low);
    var moves := seq(|range|, k requires 0 <= k < |range| => plus[k] + minus[k]);
    forall k | 0 <= k < |range| ensures moves[k] <= range[k] { MoveWithinRange(high, low, close, k); }
    RmaLinear(plus, minus, moves, 1.0, 1.0, period, i);
    RmaMonotone(moves, range, period, i);
  }

  lemma DxBounds(plus: Option<real>, minus: Option<real>)
    requires plus.Some? && minus.Some? ==> plus.value >= 0.0 && minus.value >= 0.0
    ensures 0.0 <= Dx(plus, minus) <= 100.0
  {
    if plus.Some? && minus.Some? && plus.value + minus.value != 0.0 {
      var d, s := Abs(plus.value - minus.value), plus.value + minus.value;
      DivideSign(100.0 * d, s);
      DivideSign(100.0 * (s - d), s);
      DivideLinear(100.0 * s, 100.0 * d, 1.0, -1.0, s);
    }
  }

  /** Whenever they are defined, +DI and -DI are non-negative and sum to at most 100 on valid bars,
      and ADX lies between 0 and 100. With enough history ADX is always defined. */
  lemma AdxDiBounds(high: seq<real>, low: seq<real>, close: seq<real>, period: nat)
    requires |high| == |low| == |close| && period >= 1
    ensures var r := AdxDi(high, low, close, period);
      && (r.adx.Some? <==> |close| >= 2 * period)
      && (r.adx.Some? ==> 0.0 <= r.adx.value <= 100.0)
      && (r.plusDi.Some? ==> r.minusDi.Some? && r.plusDi.value >= 0.0 && r.minusDi.value >= 0.0)
      && (r.plusDi.Some? && ValidBars(high, low, close) ==> r.plusDi.value + r.minusDi.value <= 100.0)
  {
    hide Rma, Dx, DiAt, TrueRange, PlusMove, MinusMove, ValidBars;
    if |close| >= 2 * period {
      var range, plus, minus := TrueRange(high, low, close), PlusMove(high, low), MinusMove(high, low);
      var last := |range| - 1;
      DiBounds(high, low, close, period, last);
      var dx := DxSeries(plus, minus, range, period);
      forall i | 0 <= i < |dx| ensures 0.0 <= dx[i] <= 100.0 {
        DiEarly(plus, minus, range, period, i);
        if i >= period - 1 { DiBounds(high, low, close, period, i); }
        DxBounds(DiAt(plus, range, period, i), DiAt(minus, range, period, i));
      }
      RmaWithin(dx, 100.0, period, last);
    }
  }

  lemma DiEarly(plus: seq<real>, minus: seq<real>, range: seq<real>, period: nat, i: nat)
    requires |plus| == |minus| == |range| && period >= 1 && i < |range|
    ensures i < period - 1 ==> DiAt(plus, range, period, i) == None
  {
  }

  lemma RmaWithin(a: seq<real>, top: real, period: nat, i: nat)
    requires forall k :: 0 <= k < |a| ==> 0.0 <= a[k] <= top
    requires period >= 1 && period - 1 <= i < |a|
    ensures 0.0 <= Rma(a, period, i) <= top
  {
    hide Rma;
    var level := seq(|a|, k => top);
    RmaNonNegative(a, period, i);
    RmaMonotone(a, level, period, i);
    RmaConstant(level, top, period, i);
  }

  lemma {:induction false} RmaConstant(a: seq<real>, x: real, period: nat, i: nat)
    requires forall k :: 0 <= k < |a| ==> a[k] == x
    requires period >= 1 && period - 1 <= i < |a|
    ensures Rma(a, period, i) == x
  {
    hide Smooth, Sum;
    if i == period - 1 {
      SumConstant(a[..period], x);
      DivideBack(x, period as real);
    } else {
      RmaConstant(a, x, period, i - 1);
      SmoothConstant(x, period);
    }
  }

  lemma DivideBack(x: real, p: real)
    requires p != 0.0
    ensures x * p / p == x
  {
  }

  lemma SmoothConstant(x: real, period: nat)
    requires period >= 1
    ensures Smooth(x, x, period) == x
  {
    assert x * (period - 1) as real + x == x * period as real;
    DivideBack(x, period as real);
  }

  lemma {:induction false} SumConstant(a: seq<real>, x: real)
    requires forall k :: 0 <= k < |a| ==> a[k] == x
    ensures Sum(a) == x * |a| as real
  {
    if a != [] {
      SumConstant(a[..|a| - 1], x);
      assert x * |a| as real == x * (|a| - 1) as real + x;
    }
  }

  // ----- RSI -----

  function Gains(close: seq<real>): (r: seq<real>)
    requires |close| >= 1
    ensures |r| == |close| - 1
  {
    seq(|close| - 1, k requires 0 <= k < |close| - 1 =>
      var delta := close[k + 1] - close[k];
      if delta > 0.0 then delta else 0.0)
  }

  function Losses(close: seq<real>): (r: seq<real>)
    requires |close| >= 1
    ensures |r| == |close| - 1
  {
    seq(|close| - 1, k requires 0 <= k < |close| - 1 =>
      var delta := close[k + 1] - close[k];
      if delta < 0.0 then -delta else 0.0)
  }

  /** With no losses at all RSI is 100, or 50 on a flat series. */
  function RsiOf(gain: real, loss: real): real {
    if loss <= 0.0 then (if gain > 0.0 then 100.0 else 50.0)
    else
      var rs := gain / loss;
      if 1.0 + rs == 0.0 then 0.0 else 100.0 - 100.0 / (1.0 + rs)
  }

  function Rsi(close: seq<real>, period: nat): Option<real>
    requires period >= 1
  {
    if |close| < period + 1 then None
    else
      var last := |close| - 2;
      Some(RsiOf(Rma(Gains(close), period, last), Rma(Losses(close), period, last)))
  }

  lemma RsiOfBounds(gain: real, loss: real)
    requires gain >= 0.0 && loss >= 0.0
    ensures 0.0 <= RsiOf(gain, loss) <= 100.0
    ensures loss > 0.0 ==> RsiOf(gain, loss) == 100.0 * gain / (gain + loss)
  {
    if loss > 0.0 {
      var rs := gain / loss;
      DivideSign(gain, loss);
      assert rs * loss == gain;
      var q := 100.0 / (1.0 + rs);
      assert q * (1.0 + rs) == 100.0;
      assert q * (gain + loss) == 100.0 * loss
        by { assert (1.0 + rs) * loss == gain + loss; assert q * ((1.0 + rs) * loss) == 100.0 * loss; }
      var share := 100.0 * gain / (gain + loss);
      assert share * (gain + loss) == 100.0 * gain;
      Cancel(gain + loss, 100.0 - q, share);
      DivideSign(100.0 * gain, gain + loss);
      DivideSign(100.0, 1.0 + rs);
    }
  }

  lemma RsiOfMirror(gain: real, loss: real)
    requires gain >= 0.0 && loss >= 0.0
    ensures RsiOf(loss, gain) == 100.0 - RsiOf(gain, loss)
  {
    hide RsiOf;
    RsiOfBounds(gain, loss);
    RsiOfBounds(loss, gain);
    RsiOfEdges(gain, loss);
    if gain > 0.0 && loss > 0.0 {
      DivideLinear(100.0 * gain, 100.0 * loss, 1.0, 1.0, gain + loss);
      assert 100.0 * (gain + loss) / (gain + loss) == 100.0;
    }
  }

  lemma RsiOfEdges(gain: real, loss: real)
    requires gain >= 0.0 && loss >= 0.0
    ensures loss == 0.0 && gain > 0.0 ==> RsiOf(gain, loss) == 100.0 && RsiOf(loss, gain) == 0.0
    ensures gain == 0.0 && loss > 0.0 ==> RsiOf(loss, gain) == 100.0 && RsiOf(gain, loss) == 0.0
    ensures gain == 0.0 && loss == 0.0 ==> RsiOf(gain, loss) == 50.0
  {
  }

  lemma SidesNonNegative(close: seq<real>)
    requires |close| >= 1
    ensures NonNegative(Gains(close)) && NonNegative(Losses(close))
  {
  }

  /** RSI is an oscillator: it stays within 0 and 100. */
  lemma RsiBounds(close: seq<real>, period: nat)
    requires period >= 1
    ensures var r := Rsi(close, period);
      (r.Some? <==> |close| >= period + 1) && (r.Some? ==> 0.0 <= r.value <= 100.0)
  {
    hide RsiOf, Rma;
    if |close| >= period + 1 {
      SidesNonNegative(close);
      RmaNonNegative(Gains(close), period, |close| - 2);
      RmaNonNegative(Losses(close), period, |close| - 2);
      RsiOfBounds(Rma(Gains(close), period, |close| - 2), Rma(Losses(close), period, |close| - 2));
    }
  }

  function Mirrored(close: seq<real>, c: real): (r: seq<real>)
    ensures |r| == |close|
  {
    seq(|close|, k requires 0 <= k < |close| => c - close[k])
  }

  /** Turning a price series upside down turns its RSI upside down, flat and loss-free series included. */
  lemma RsiMirror(close: seq<real>, c: real, period: nat)
    requires period >= 1 && |close| >= period + 1
    ensures Rsi(Mirrored(close, c), period).value == 100.0 - Rsi(close, period).value
  {
    hide RsiOf, Rma;
    assert Gains(Mirrored(close, c)) == Losses(close);
    assert Losses(Mirrored(close, c)) == Gains(close);
    SidesNonNegative(close);
    RmaNonNegative(Gains(close), period, |close| - 2);
    RmaNonNegative(Losses(close), period, |close| - 2);
    RsiOfMirror(Rma(Gains(close), period, |close| - 2), Rma(Losses(close), period, |close| - 2));
  }

  // ----- R-squared -----

  function Mean(s: seq<real>): real
    requires s != []
  {
    Sum(s) / |s| as real
  }

  function Centered(s: seq<real>): (r: seq<real>)
    requires s != []
    ensures |r| == |s|
  {
    seq(|s|, i requires 0 <= i < |s| => s[i] - Mean(s))
  }

  function Dot(a: seq<real>, b: seq<real>): real
    requires |a| == |b|
  {
    if a == [] then 0.0
    else Dot(a[..|a| - 1], b[..|b| - 1]) + a[|a| - 1] * b[|b| - 1]
  }

  function Ramp(n: nat): (r: seq<real>)
    ensures |r| == n
  {
    seq(n, i => i as real)
  }

  /** Squared correlation of the last window closes with time; None when either is constant. */
  function RSquared(close: seq<real>, window: nat): Option<real>
    requires window >= 1
  {
    if |close| < window then None
    else
      var x, y := Centered(Ramp(window)), Centered(close[|close| - window..]);
      var sxx, syy, sxy := Dot(x, x), Dot(y, y), Dot(x, y);
      if sxx <= 0.0 || syy <= 0.0 then None else Some(Correlation(sxy, sxx, syy))
  }

  function Correlation(sxy: real, sxx: real, syy: real): real
    requires sxx > 0.0 && syy > 0.0
  {
    ProductSign(sxx, syy);
    sxy * sxy / (sxx * syy)
  }

  lemma {:induction false} DotLinear(a: seq<real>, b: seq<real>, c: seq<real>, d: seq<real>, ka: real, kb: real)
    requires |a| == |b| == |c| == |d| && forall i :: 0 <= i < |a| ==> c[i] == ka * a[i] + kb * b[i]
    ensures Dot(c, d) == ka * Dot(a, d) + kb * Dot(b, d)
  {
    if a != [] {
      var n := |a| - 1;
      DotLinear(a[..n], b[..n], c[..n], d[..n], ka, kb);
      DotTerm(Dot(a[..n], d[..n]), Dot(b[..n], d[..n]), a[n], b[n], d[n], ka, kb);
    }
  }

  lemma DotTerm(u: real, v: real, a: real, b: real, d: real, ka: real, kb: real)
    ensures ka * u + kb * v + (ka * a + kb * b) * d == ka * (u + a * d) + kb * (v + b * d)
  {
    assert (ka * a + kb * b) * d == ka * (a * d) + kb * (b * d);
  }

  lemma {:induction false} DotSymmetric(a: seq<real>, b: seq<real>)
    requires |a| == |b|
    ensures Dot(a, b) == Dot(b, a)
  {
    if a != [] { DotSymmetric(a[..|a| - 1], b[..|b| - 1]); }
  }

  lemma {:induction false} DotSelf(a: seq<real>)
    ensures Dot(a, a) >= 0.0
  {
    if a != [] {
      DotSelf(a[..|a| - 1]);
      Square(a[|a| - 1]);
    }
  }

  lemma Square(x: real)
    ensures x * x >= 0.0
  {
    ProductSign(x, x);
    ProductSign(-x, -x);
    assert (-x) * (-x) == x * x;
  }

  /** |a . b|^2 <= (a . a)(b . b) */
  lemma CauchySchwarz(a: seq<real>, b: seq<real>)
    requires |a| == |b| && Dot(a, a) > 0.0
    ensures Dot(a, b) * Dot(a, b) <= Dot(a, a) * Dot(b, b)
  {
    hide Dot;
    var u, v := Dot(a, a), Dot(a, b);
    var d := seq(|a|, i requires 0 <= i < |a| => u * b[i] + (-v) * a[i]);
    DotLinear(b, a, d, d, u, -v);
    DotLinear(b, a, d, a, u, -v);
    DotLinear(b, a, d, b, u, -v);
    DotSymmetric(a, b);
    DotSymmetric(d, a);
    DotSymmetric(d, b);
    DotSelf(d);
    Discriminant(u, v, Dot(b, b), Dot(d, d));
  }

  lemma Discriminant(u: real, v: real, w: real, q: real)
    requires u > 0.0 && q >= 0.0
    requires q == u * (u * w + (-v) * v) + (-v) * (u * v + (-v) * u)
    ensures v * v <= u * w
  {
    assert u * v + (-v) * u == 0.0;
    var e := u * w + (-v) * v;
    assert u * e >= 0.0;
    ProductSign(u, e);
  }

  /** R-squared is a proportion on every window where it is defined. */
  lemma RSquaredBounds(close: seq<real>, window: nat)
    requires window >= 1
    ensures RSquared(close, window).Some? ==> 0.0 <= RSquared(close, window).value <= 1.0
  {
    hide Dot, Centered, Correlation;
    if RSquared(close, window).Some? {
      var x, y := Centered(Ramp(window)), Centered(close[|close| - window..]);
      CauchySchwarz(x, y);
      CorrelationBounds(Dot(x, y), Dot(x, x), Dot(y, y));
    }
  }

  lemma CorrelationBounds(sxy: real, sxx: real, syy: real)
    requires sxx > 0.0 && syy > 0.0 && sxy * sxy <= sxx * syy
    ensures 0.0 <= Correlation(sxy, sxx, syy) <= 1.0
  {
    ProductSign(sxx, syy);
    Square(sxy);
    var d, s := sxx * syy, sxy * sxy;
    DivideSign(s, d);
    DivideSign(d - s, d);
    DivideLinear(d, s, 1.0, -1.0, d);
  }

  function Mapped(close: seq<real>, a: real, b: real): (r: seq<real>)
    ensures |r| == |close|
  {
    seq(|close|, i requires 0 <= i < |close| => a * close[i] + b)
  }

  lemma MappedTail(close: seq<real>, a: real, b: real, k: nat)
    requires k <= |close|
    ensures Mapped(close, a, b)[k..] == Mapped(close[k..], a, b)
  {
    forall i | 0 <= i < |close| - k ensures Mapped(close, a, b)[k..][i] == Mapped(close[k..], a, b)[i] {
      assert close[k..][i] == close[k + i];
    }
  }

  lemma ShiftedShare(shifted: real, total: real, ones: real, n: real, a: real, b: real)
    requires n != 0.0 && shifted == a * total + b * ones && ones == 1.0 * n
    ensures shifted / n == a * (total / n) + b
  {
    var q := total / n;
    QuotientTimes(total, n);
    SharedFactor(a, q, b, n);
    QuotientOf(shifted, n, a * q + b);
  }

  lemma SharedFactor(a: real, q: real, b: real, n: real)
    ensures (a * q + b) * n == a * (q * n) + b * n
  {
  }

  lemma MeanMapped(s: seq<real>, a: real, b: real)
    requires s != []
    ensures Mean(Mapped(s, a, b)) == a * Mean(s) + b
  {
    hide Sum;
    var ones := seq(|s|, i => 1.0);
    var t := Mapped(s, a, b);
    forall i | 0 <= i < |s| ensures t[i] == a * s[i] + b * ones[i] {}
    SumLinear(s, ones, t, a, b);
    SumConstant(ones, 1.0);
    ShiftedShare(Sum(t), Sum(s), Sum(ones), |s| as real, a, b);
  }

  lemma CenteredMapped(s: seq<real>, a: real, b: real)
    requires s != []
    ensures forall i :: 0 <= i < |s| ==> Centered(Mapped(s, a, b))[i] == a * Centered(s)[i]
  {
    hide Mean;
    MeanMapped(s, a, b);
    forall i | 0 <= i < |s| ensures Centered(Mapped(s, a, b))[i] == a * Centered(s)[i] {
      CenterTerm(s[i], Mean(s), a, b);
    }
  }

  lemma CenterTerm(x: real, mean: real, a: real, b: real)
    ensures (a * x + b) - (a * mean + b) == a * (x - mean)
  {
  }

  /** A change of price unit, origin or sign does not change R-squared. */
  lemma RSquaredInvariant(close: seq<real>, window: nat, a: real, b: real)
    requires window >= 1 && a != 0.0
    ensures RSquared(Mapped(close, a, b), window) == RSquared(close, window)
  {
    hide Dot, Centered, Correlation;
    if |close| >= window {
      var x := Centered(Ramp(window));
      var tail := close[|close| - window..];
      MappedTail(close, a, b, |close| - window);
      var y, y' := Centered(tail), Centered(Mapped(tail, a, b));
      CenteredMapped(tail, a, b);
      DotLinear(y, y, y', x, a, 0.0);
      DotLinear(y, y, y', y, a, 0.0);
      DotLinear(y, y, y', y', a, 0.0);
      DotSymmetric(x, y);
      DotSymmetric(x, y');
      DotSymmetric(y, y');
      Square(a);
      CorrelationScaled(Dot(x, y), Dot(x, x), Dot(y, y), Dot(x, y'), Dot(y', y'), a);
    }
  }

  lemma PulledOut(a: real, x: real)
    ensures a * (a * x) == (a * a) * x
  {
  }

  lemma CorrelationScaled(sxy: real, sxx: real, syy: real, sxy': real, syy': real, a: real)
    requires a != 0.0 && sxy' == a * sxy && syy' == a * (a * syy)
    ensures syy' > 0.0 <==> syy > 0.0
    ensures sxx > 0.0 && syy > 0.0 ==> Correlation(sxy', sxx, syy') == Correlation(sxy, sxx, syy)
  {
    TwiceSign(a, syy, a * syy, syy');
    if sxx > 0.0 && syy > 0.0 {
      ProductSign(sxx, syy);
      var n, d := sxy * sxy, sxx * syy;
      TwiceSign(a, d, a * d, a * (a * d));
      Exchange(a, sxy, a, sxy);
      PulledOut(a, n);
      PulledOut(a, syy);
      PulledOut(a, d);
      Exchange(sxx, 1.0, a * a, syy);
      assert sxy' * sxy' == a * (a * n);
      assert sxx * syy' == a * (a * d);
      CancelFactor(a, n, d);
      CancelFactor(a, a * n, a * d);
    }
  }

  /** Multiplying twice by the same non-zero factor keeps the sign. */
  lemma TwiceSign(a: real, s: real, p: real, t: real)
    requires a != 0.0 && p == a * s && t == a * p
    ensures t > 0.0 <==> s > 0.0
    ensures s > 0.0 ==> p != 0.0
  {
    if a > 0.0 {
      OnceSign(a, s, p);
      OnceSign(a, p, t);
    } else {
      OnceSign(-a, s, -p);
      OnceSign(-a, -p, t);
    }
  }

  lemma OnceSign(a: real, s: real, p: real)
    requires a > 0.0 && p == a * s
    ensures p > 0.0 <==> s > 0.0
  {
    ProductSign(a, s);
  }

  lemma CancelFactor(a: real, n: real, d: real)
    requires a != 0.0 && d != 0.0 && a * d != 0.0
    ensures (a * n) / (a * d) == n / d
  {
    var q := n / d;
    assert q * d == n;
    assert q * (a * d) == a * n;
  }
}
