/** Which way the indicators point, and by how much (src/spy_der/features/indicators.py). */
module IndicatorLaws {
  import opened Options
  import opened RealSeqs
  import opened Indicators

  // ----- How the Wilder average weighs its values -----

  /** ((period - 1) / period) to the power m. */
  function Decay(period: nat, m: nat): real
    requires period >= 1
  {
    if m == 0 then 1.0 else Decay(period, m - 1) * (period - 1) as real / period as real
  }

  ghost predicate IsImpulse(a: seq<real>, j: nat, d: real) {
    forall k :: 0 <= k < |a| ==> a[k] == if k == j then d else 0.0
  }

  lemma {:induction false} SumImpulse(a: seq<real>, j: nat, d: real)
    requires IsImpulse(a, j, d)
    ensures Sum(a) == if j < |a| then d else 0.0
  {
    if a != [] { SumImpulse(a[..|a| - 1], j, d); }
  }

  /** What a value d still counts for, m bars after its own, or after the seed if it is part of that. */
  function Effect(d: real, period: nat, m: nat): real
    requires period >= 1
  {
    d / period as real * Decay(period, m)
  }

  /** The bar from which a value at j counts. */
  function CountsFrom(j: nat, period: nat): nat
    requires period >= 1
  {
    if j > period - 1 then j else period - 1
  }

  /** A single value d counts for d / period, and decays from then on. */
  lemma {:induction false} RmaImpulse(a: seq<real>, j: nat, d: real, period: nat, i: nat)
    requires IsImpulse(a, j, d) && period >= 1 && period - 1 <= i < |a|
    ensures Rma(a, period, i) == if j > i then 0.0 else Effect(d, period, i - CountsFrom(j, period))
  {
    hide Sum, Smooth, Effect;
    if i == period - 1 {
      SumImpulse(a[..period], j, d);
      FirstEffect(d, period);
    } else {
      RmaImpulse(a, j, d, period, i - 1);
      FirstEffect(d, period);
      if j < i { NextEffect(d, period, i - 1 - CountsFrom(j, period)); }
    }
  }

  lemma FirstEffect(d: real, period: nat)
    requires period >= 1
    ensures d / period as real == Effect(d, period, 0) == Smooth(0.0, d, period)
    ensures 0.0 / period as real == 0.0 == Smooth(0.0, 0.0, period)
  {
    ZeroShare(period as real);
  }

  lemma NextEffect(d: real, period: nat, m: nat)
    requires period >= 1
    ensures Smooth(Effect(d, period, m), 0.0, period) == Effect(d, period, m + 1)
  {
    DecayStep(d / period as real, Decay(period, m), (period - 1) as real, period as real);
  }

  lemma ZeroShare(p: real)
    requires p > 0.0
    ensures 0.0 / p == 0.0
  {
    QuotientOf(0.0, p, 0.0);
  }

  lemma DecayStep(x: real, decay: real, q: real, p: real)
    requires p > 0.0
    ensures ((x * decay) * q + 0.0) / p == x * (decay * q / p)
  {
    QuotientTimes(decay * q, p);
    var s := decay * q / p;
    Exchange(x, decay, q, 1.0);
    assert (x * decay) * q == x * (decay * q);
    Grouped3(x, s, p);
    QuotientOf((x * decay) * q, p, x * s);
  }

  lemma Grouped3(x: real, s: real, p: real)
    ensures (x * s) * p == x * (s * p)
  {
  }

  lemma RmaAdds(a: seq<real>, b: seq<real>, c: seq<real>, period: nat, i: nat)
    requires |a| == |b| == |c| && forall k :: 0 <= k < |a| ==> c[k] == a[k] + b[k]
    requires period >= 1 && period - 1 <= i < |a|
    ensures Rma(c, period, i) == Rma(a, period, i) + Rma(b, period, i)
  {
    hide Rma;
    RmaLinear(a, b, c, 1.0, 1.0, period, i);
  }

  /** Changing one value by d moves the average by that much. */
  lemma RmaResponds(a: seq<real>, b: seq<real>, j: nat, d: real, period: nat, i: nat)
    requires |a| == |b| && j < |a| && b == a[j := a[j] + d]
    requires period >= 1 && period - 1 <= i < |a|
    ensures Rma(b, period, i) - Rma(a, period, i)
         == if j > i then 0.0 else Effect(d, period, i - CountsFrom(j, period))
  {
    hide Rma, Effect;
    var impulse := seq(|a|, k => if k == j then d else 0.0);
    forall k | 0 <= k < |a| ensures b[k] == a[k] + impulse[k] {}
    RmaAdds(a, impulse, b, period, i);
    RmaImpulse(impulse, j, d, period, i);
  }

  /** A positive value within the averaged stretch makes the average positive; with period 1 that stretch is
      the last value. */
  lemma {:induction false} RmaPositive(a: seq<real>, period: nat, i: nat, j: nat)
    requires NonNegative(a) && period >= 1 && period - 1 <= i < |a|
    requires j <= i && a[j] > 0.0 && (period >= 2 || j == i)
    ensures Rma(a, period, i) > 0.0
  {
    hide Sum;
    if i == period - 1 {
      SumPositive(a[..period], j);
      PositiveShare(Sum(a[..period]), period as real);
    } else {
      RmaNonNegative(a, period, i - 1);
      var prev := Rma(a, period, i - 1);
      ProductSign(prev, (period - 1) as real);
      if a[i] == 0.0 { RmaPositive(a, period, i - 1, j); ProductSign(Rma(a, period, i - 1), (period - 1) as real); }
      PositiveShare(prev * (period - 1) as real + a[i], period as real);
    }
  }

  lemma {:induction false} SumPositive(s: seq<real>, j: nat)
    requires NonNegative(s) && j < |s| && s[j] > 0.0
    ensures Sum(s) > 0.0
  {
    var n := |s| - 1;
    if j < n { SumPositive(s[..n], j); } else { SumNonNegative(s[..n]); }
  }

  lemma PositiveShare(x: real, p: real)
    requires x > 0.0 && p > 0.0
    ensures x / p > 0.0
  {
    QuotientTimes(x, p);
    ProductSign(p, x / p);
  }

  // ----- RSI -----

  ghost predicate NeverFalls(close: seq<real>) { forall k :: 0 <= k < |close| - 1 ==> Step(close, k) >= 0.0 }

  ghost predicate NeverRises(close: seq<real>) { forall k :: 0 <= k < |close| - 1 ==> Step(close, k) <= 0.0 }

  /** The k-th change from one close to the next. */
  function Step(close: seq<real>, k: nat): real
    requires k + 1 < |close|
  {
    close[k + 1] - close[k]
  }

  ghost predicate Averaged(close: seq<real>, period: nat, k: nat) {
    k + 1 < |close| && (period >= 2 || k == |close| - 2)
  }

  lemma SideOf(close: seq<real>, k: nat)
    requires k + 1 < |close|
    ensures Gains(close)[k] == Max(Step(close, k), 0.0) && Losses(close)[k] == Max(-Step(close, k), 0.0)
  {
  }

  /** A series that never falls, and rises in the averaged stretch, has RSI 100. */
  lemma RisingScoresHundred(close: seq<real>, period: nat, k: nat)
    requires period >= 1 && |close| >= period + 1
    requires NeverFalls(close) && Averaged(close, period, k) && Step(close, k) > 0.0
    ensures Rsi(close, period) == Some(100.0)
  {
    hide Rma;
    var last := |close| - 2;
    SidesNonNegative(close);
    forall i | 0 <= i < |close| - 1 ensures Losses(close)[i] == 0.0 { SideOf(close, i); }
    RmaConstant(Losses(close), 0.0, period, last);
    SideOf(close, k);
    RmaPositive(Gains(close), period, last, k);
  }

  /** A series that never rises, and falls there, has RSI 0. */
  lemma FallingScoresZero(close: seq<real>, period: nat, k: nat)
    requires period >= 1 && |close| >= period + 1
    requires NeverRises(close) && Averaged(close, period, k) && Step(close, k) < 0.0
    ensures Rsi(close, period) == Some(0.0)
  {
    hide Rma, RsiOf;
    var last := |close| - 2;
    SidesNonNegative(close);
    forall i | 0 <= i < |close| - 1 ensures Gains(close)[i] == 0.0 { SideOf(close, i); }
    RmaConstant(Gains(close), 0.0, period, last);
    SideOf(close, k);
    RmaPositive(Losses(close), period, last, k);
    RsiOfEdges(0.0, Rma(Losses(close), period, last));
  }

  lemma FlatScoresFifty(close: seq<real>, period: nat)
    requires period >= 1 && |close| >= period + 1 && NeverFalls(close) && NeverRises(close)
    ensures Rsi(close, period) == Some(50.0)
  {
    hide Rma;
    var last := |close| - 2;
    forall i | 0 <= i < |close| - 1 ensures Gains(close)[i] == 0.0 == Losses(close)[i] { SideOf(close, i); }
    RmaConstant(Gains(close), 0.0, period, last);
    RmaConstant(Losses(close), 0.0, period, last);
  }

  /** Raising the last close never lowers RSI. */
  lemma RaisingTheLastClose(close: seq<real>, higher: real, period: nat)
    requires period >= 1 && |close| >= period + 1 && higher >= close[|close| - 1]
    ensures Rsi(close[|close| - 1 := higher], period).value >= Rsi(close, period).value
  {
    hide Rma, RsiOf;
    var raised, last := close[|close| - 1 := higher], |close| - 2;
    forall k | 0 <= k < |close| - 1
      ensures Gains(close)[k] <= Gains(raised)[k] && Losses(raised)[k] <= Losses(close)[k]
    {
      SideOf(close, k);
      SideOf(raised, k);
    }
    SidesNonNegative(close);
    SidesNonNegative(raised);
    RmaMonotone(Gains(close), Gains(raised), period, last);
    RmaMonotone(Losses(raised), Losses(close), period, last);
    RmaNonNegative(Gains(close), period, last);
    RmaNonNegative(Losses(raised), period, last);
    RsiOfMonotone(Rma(Gains(close), period, last), Rma(Losses(close), period, last),
                  Rma(Gains(raised), period, last), Rma(Losses(raised), period, last));
  }

  lemma RsiOfMonotone(g: real, l: real, g': real, l': real)
    requires 0.0 <= g <= g' && 0.0 <= l' <= l
    ensures RsiOf(g, l) <= RsiOf(g', l')
  {
    hide RsiOf;
    RsiOfBounds(g, l);
    RsiOfBounds(g', l');
    RsiOfEdges(g, l);
    RsiOfEdges(g', l');
    if g > 0.0 && l' > 0.0 {
      ProductSign(g' - g, l);
      ProductSign(g', l - l');
      GreaterShare(g, l, g', l');
    }
  }

  lemma GreaterShare(g: real, l: real, g': real, l': real)
    requires 0.0 < g <= g' && 0.0 < l' <= l
    ensures 100.0 * g / (g + l) <= 100.0 * g' / (g' + l')
  {
    var s, s' := g + l, g' + l';
    var q, q' := 100.0 * g / s, 100.0 * g' / s';
    QuotientTimes(100.0 * g, s);
    QuotientTimes(100.0 * g', s');
    Crossed(g, l, g', l');
    if q > q' {
      Raised(q, q', s, s');
    }
  }

  lemma Crossed(g: real, l: real, g': real, l': real)
    requires 0.0 < g <= g' && 0.0 < l' <= l
    ensures g * (g' + l') <= g' * (g + l)
  {
    ProductSign(g' - g, l);
    ProductSign(g, l - l');
    Distribute(l, g', g);
    Distribute(g, l, l');
  }

  lemma Raised(q: real, q': real, s: real, s': real)
    requires q > q' && s > 0.0 && s' > 0.0
    ensures (q * s) * s' > (q' * s') * s
  {
    ProductSign(s, s');
    ProductSign(q - q', s * s');
    Exchange(q, s, s', 1.0);
    Exchange(q', s', s, 1.0);
    Distribute(s * s', q, q');
  }

  // ----- Directional movement -----

  /** The true range is the span of the bar and the previous close together. */
  lemma TrueRangeIsSpan(high: seq<real>, low: seq<real>, close: seq<real>, k: nat)
    requires |high| == |low| == |close| && k + 1 < |close| && low[k + 1] <= high[k + 1]
    ensures TrueRange(high, low, close)[k] == Max(high[k + 1], close[k]) - Min(low[k + 1], close[k])
  {
  }

  ghost predicate Trends(high: seq<real>, low: seq<real>)
    requires |high| == |low|
  {
    forall k :: 0 <= k < |high| - 1 ==> Step(high, k) > 0.0 && Step(low, k) >= 0.0
  }

  lemma TrendMoves(high: seq<real>, low: seq<real>, k: nat)
    requires |high| == |low| && k + 1 < |high| && Trends(high, low)
    ensures PlusMove(high, low)[k] == Step(high, k) > 0.0 && MinusMove(high, low)[k] == 0.0
  {
    assert Step(high, k) > 0.0 && Step(low, k) >= 0.0;
  }

  /** In an unbroken rise of valid bars -DI is 0 and +DI positive, and ADX approaches 100 from below: the DX
      values missing at the start count as 0, and that decays. */
  lemma RisingBarsTrend(high: seq<real>, low: seq<real>, close: seq<real>, period: nat)
    requires |high| == |low| == |close| && period >= 1 && |close| >= 2 * period
    requires ValidBars(high, low, close) && Trends(high, low)
    ensures var r := AdxDi(high, low, close, period);
      && r.plusDi.Some? && r.plusDi.value > 0.0 && r.minusDi == Some(0.0)
      && r.adx == Some(Approach(period, |close| - period))
  {
    hide Rma, ValidBars, Trends, Dx, TrueRange, PlusMove, MinusMove, Approach;
    var range, plus, minus := TrueRange(high, low, close), PlusMove(high, low), MinusMove(high, low);
    forall i | 0 <= i < |range| && i >= period - 1
      ensures DiAt(plus, range, period, i).Some? && DiAt(plus, range, period, i).value > 0.0
      ensures DiAt(minus, range, period, i) == Some(0.0)
    {
      TrendDi(high, low, close, period, i);
    }
    var dx := DxSeries(plus, minus, range, period);
    forall i | 0 <= i < |dx| ensures dx[i] == if i < period - 1 then 0.0 else 100.0 {
      DiEarly(plus, minus, range, period, i);
      DiEarly(minus, plus, range, period, i);
      OneSidedDx(DiAt(plus, range, period, i), DiAt(minus, range, period, i));
    }
    LateHundreds(dx, period, |range| - 1);
  }

  /** 100 once the share ((period - 1) / period)^m still missing is gone. */
  function Approach(period: nat, m: nat): real
    requires period >= 1
  {
    100.0 * (1.0 - Decay(period, m))
  }

  lemma OneSidedDx(plus: Option<real>, minus: Option<real>)
    ensures plus == None ==> Dx(plus, minus) == 0.0
    ensures plus.Some? && plus.value > 0.0 && minus == Some(0.0) ==> Dx(plus, minus) == 100.0
  {
    if plus.Some? && plus.value > 0.0 && minus == Some(0.0) {
      QuotientOf(100.0 * plus.value, plus.value, 100.0);
    }
  }

  lemma TrendDi(high: seq<real>, low: seq<real>, close: seq<real>, period: nat, i: nat)
    requires |high| == |low| == |close| && period >= 1 && period - 1 <= i < |close| - 1
    requires ValidBars(high, low, close) && Trends(high, low)
    ensures var range := TrueRange(high, low, close);
      var plus, minus := DiAt(PlusMove(high, low), range, period, i), DiAt(MinusMove(high, low), range, period, i);
      plus.Some? && plus.value > 0.0 && minus == Some(0.0)
  {
    hide Rma, Trends, ValidBars, TrueRange, PlusMove, MinusMove;
    var range, plus, minus := TrueRange(high, low, close), PlusMove(high, low), MinusMove(high, low);
    forall k | 0 <= k < |plus| ensures plus[k] > 0.0 && minus[k] == 0.0 && range[k] > 0.0 {
      TrendMoves(high, low, k);
      MoveWithinRange(high, low, close, k);
    }
    RmaPositive(plus, period, i, i);
    RmaPositive(range, period, i, i);
    RmaConstant(minus, 0.0, period, i);
    PositiveShare(100.0 * Rma(plus, period, i), Rma(range, period, i));
    ZeroShare(Rma(range, period, i));
  }

  lemma {:induction false} LateHundreds(dx: seq<real>, period: nat, i: nat)
    requires period >= 1 && period - 1 <= i < |dx|
    requires forall k :: 0 <= k < |dx| ==> dx[k] == if k < period - 1 then 0.0 else 100.0
    ensures Rma(dx, period, i) == Approach(period, i + 2 - period)
  {
    hide Sum, Smooth, Approach;
    if i == period - 1 {
      SumImpulse(dx[..period], period - 1, 100.0);
      FirstHundred(period);
    } else {
      LateHundreds(dx, period, i - 1);
      NextHundred(period, i + 1 - period);
    }
  }

  lemma FirstHundred(period: nat)
    requires period >= 1
    ensures 100.0 / period as real == Approach(period, 1)
  {
    var p := period as real;
    assert Decay(period, 0) == 1.0;
    NextApproach(1.0, p);
    assert Decay(period, 1) == Decay(period, 0) * (period - 1) as real / p;
  }

  lemma NextHundred(period: nat, m: nat)
    requires period >= 1
    ensures Smooth(Approach(period, m), 100.0, period) == Approach(period, m + 1)
  {
    NextApproach(Decay(period, m), period as real);
  }

  lemma NextApproach(decay: real, p: real)
    requires p > 0.0
    ensures (100.0 * (1.0 - decay) * (p - 1.0) + 100.0) / p == 100.0 * (1.0 - decay * (p - 1.0) / p)
  {
    var s := decay * (p - 1.0) / p;
    QuotientTimes(decay * (p - 1.0), p);
    OverShare(decay, p, s);
    QuotientOf(100.0 * (1.0 - decay) * (p - 1.0) + 100.0, p, 100.0 * (1.0 - s));
  }

  lemma OverShare(decay: real, p: real, s: real)
    requires s * p == decay * (p - 1.0)
    ensures 100.0 * (1.0 - decay) * (p - 1.0) + 100.0 == 100.0 * (1.0 - s) * p
  {
  }

  /** Turning the bars upside down exchanges the two DI and keeps ADX. */
  lemma MirroredBarsExchange(high: seq<real>, low: seq<real>, close: seq<real>, c: real, period: nat)
    requires |high| == |low| == |close| && period >= 1
    ensures var r := AdxDi(high, low, close, period);
      AdxDi(Mirrored(low, c), Mirrored(high, c), Mirrored(close, c), period) == Directional(r.adx, r.minusDi, r.plusDi)
  {
    hide Rma, Dx;
    if |close| >= 2 * period {
      var high', low', close' := Mirrored(low, c), Mirrored(high, c), Mirrored(close, c);
      var range, plus, minus := TrueRange(high, low, close), PlusMove(high, low), MinusMove(high, low);
      assert PlusMove(high', low') == minus;
      assert MinusMove(high', low') == plus;
      assert TrueRange(high', low', close') == range;
      hide DiAt;
      forall i | 0 <= i < |range|
        ensures DxSeries(minus, plus, range, period)[i] == DxSeries(plus, minus, range, period)[i]
      {
        DxSymmetric(DiAt(plus, range, period, i), DiAt(minus, range, period, i));
      }
      assert DxSeries(minus, plus, range, period) == DxSeries(plus, minus, range, period);
    }
  }

  lemma DxSymmetric(plus: Option<real>, minus: Option<real>)
    ensures Dx(minus, plus) == Dx(plus, minus)
  {
    if plus.Some? && minus.Some? {
      assert Abs(plus.value - minus.value) == Abs(minus.value - plus.value);
      assert plus.value + minus.value == minus.value + plus.value;
    }
  }

  // ----- The directional index -----

  /** The directional index is 0 exactly for equal DI, 100 exactly if one of them is 0 and the other is not, and the
      same for DI in the same proportion. */
  lemma DxMeasuresImbalance(p: real, m: real, k: real)
    requires p >= 0.0 && m >= 0.0 && k > 0.0
    ensures var dx := Dx(Some(p), Some(m));
      && 0.0 <= dx <= 100.0
      && (dx == 0.0 <==> p == m)
      && (dx == 100.0 <==> p != m && (p == 0.0 || m == 0.0))
      && Dx(Some(Times(k, p)), Some(Times(k, m))) == dx
  {
    hide Times;
    TimesNonNegative(k, p, m);
    if p + m > 0.0 {
      DxIsShare(p, m);
      ImbalanceShare(p, m);
      DxIsShare(Times(k, p), Times(k, m));
      ScaledImbalance(p, m, k);
    }
  }

  function Times(k: real, x: real): real { k * x }

  lemma TimesNonNegative(k: real, p: real, m: real)
    requires p >= 0.0 && m >= 0.0 && k > 0.0
    ensures Times(k, p) >= 0.0 && Times(k, m) >= 0.0
    ensures p + m > 0.0 <==> Times(k, p) + Times(k, m) > 0.0
  {
    ProductSign(k, p);
    ProductSign(k, m);
  }

  /** The difference as a percentage of the sum. */
  function Imbalance(p: real, m: real): real
    requires p + m > 0.0
  {
    100.0 * Abs(p - m) / (p + m)
  }

  lemma DxIsShare(p: real, m: real)
    requires p + m > 0.0
    ensures Dx(Some(p), Some(m)) == Imbalance(p, m)
  {
  }

  lemma ScaledImbalance(p: real, m: real, k: real)
    requires p >= 0.0 && m >= 0.0 && k > 0.0 && p + m > 0.0 && Times(k, p) + Times(k, m) > 0.0
    ensures Imbalance(Times(k, p), Times(k, m)) == Imbalance(p, m)
  {
    Distribute(k, p, m);
    ScaledAbsolute(k, p - m);
    assert k * p + k * m == k * (p + m);
    SameShare(100.0 * Abs(p - m), p + m, k);
    assert 100.0 * (k * Abs(p - m)) == k * (100.0 * Abs(p - m));
  }

  lemma ImbalanceShare(p: real, m: real)
    requires p >= 0.0 && m >= 0.0 && p + m > 0.0
    ensures var dx := Imbalance(p, m);
      0.0 <= dx <= 100.0 && (dx == 0.0 <==> p == m) && (dx == 100.0 <==> p == 0.0 || m == 0.0)
  {
    PercentBounds(Abs(p - m), p + m);
  }

  lemma PercentBounds(d: real, t: real)
    requires 0.0 <= d <= t && t > 0.0
    ensures var dx := 100.0 * d / t;
      0.0 <= dx <= 100.0 && (dx == 0.0 <==> d == 0.0) && (dx == 100.0 <==> d == t)
  {
    var dx := 100.0 * d / t;
    QuotientTimes(100.0 * d, t);
    ProductSign(t, dx);
    ProductSign(t, 100.0 - dx);
    Distribute(t, 100.0, dx);
    if d == t { Cancel(t, dx, 100.0); }
    if d == 0.0 { Cancel(t, dx, 0.0); }
  }

  lemma ScaledAbsolute(k: real, x: real)
    requires k > 0.0
    ensures Abs(k * x) == k * Abs(x)
  {
    ProductSign(k, x);
  }

  lemma SameShare(n: real, d: real, k: real)
    requires d > 0.0 && k > 0.0
    ensures k * d != 0.0 && (k * n) / (k * d) == n / d
  {
    ProductSign(k, d);
    var q := n / d;
    QuotientTimes(n, d);
    assert q * (k * d) == k * (q * d);
    QuotientOf(k * n, k * d, q);
  }
}
