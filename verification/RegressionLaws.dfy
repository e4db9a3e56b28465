/** What R-squared measures: the share of the variation of the closes that the best line explains
    (src/spy_der/features/indicators.py). */
module RegressionLaws {
  import opened Options
  import opened RealSeqs
  import opened Indicators

  /** The closes of the window about their mean, and time about its mean. */
  function Y(close: seq<real>, window: nat): (y: seq<real>)
    requires 1 <= window <= |close|
    ensures |y| == window
  {
    Centered(close[|close| - window..])
  }

  function X(window: nat): (x: seq<real>)
    requires window >= 1
    ensures |x| == window
  {
    Centered(Ramp(window))
  }

  /** R-squared is the share of the variation explained: no line through the means leaves less than the rest of
      it unexplained, and the regression line leaves exactly that. */
  lemma RSquaredIsExplained(close: seq<real>, window: nat, slope: real, rest: seq<real>)
    requires 1 <= window <= |close| && RSquared(close, window).Some?
    requires |rest| == window && forall i :: 0 <= i < window ==> rest[i] == Y(close, window)[i] - slope * X(window)[i]
    ensures var x, y, r := X(window), Y(close, window), RSquared(close, window).value;
      && Dot(rest, rest) >= (1.0 - r) * Dot(y, y)
      && (slope * Dot(x, x) == Dot(x, y) ==> Dot(rest, rest) == (1.0 - r) * Dot(y, y))
  {
    hide Dot, Centered, Correlation;
    var x, y := X(window), Y(close, window);
    DotLinear(y, x, rest, rest, 1.0, -slope);
    DotLinear(y, x, rest, y, 1.0, -slope);
    DotLinear(y, x, rest, x, 1.0, -slope);
    DotSymmetric(y, rest);
    DotSymmetric(x, rest);
    DotSymmetric(x, y);
    Unexplained(Dot(x, x), Dot(x, y), Dot(y, y), slope, Dot(rest, y), Dot(rest, x), Dot(rest, rest));
  }

  lemma Unexplained(s: real, t: real, u: real, b: real, ry: real, rx: real, rr: real)
    requires s > 0.0 && u > 0.0
    requires ry == u - b * t && rx == t - b * s && rr == ry - b * rx
    ensures var r := Correlation(t, s, u);
      && rr >= (1.0 - r) * u
      && (b * s == t ==> rr == (1.0 - r) * u)
  {
    var r := Correlation(t, s, u);
    var w := r * u;
    CorrelationTimes(s, t, u);
    assert w * s == t * t;
    OneLess(r, u);
    var gap := rr - (u - w);
    GapTimes(s, t, u, b, w, ry, rx, rr);
    Square(b * s - t);
    if gap < 0.0 { ProductSign(s, gap); }
    if b * s == t { Cancel(s, gap, 0.0); }
  }

  lemma OneLess(r: real, u: real)
    ensures (1.0 - r) * u == u - r * u
  {
  }

  lemma CorrelationTimes(s: real, t: real, u: real)
    requires s > 0.0 && u > 0.0
    ensures (Correlation(t, s, u) * u) * s == t * t
  {
    ProductSign(s, u);
    QuotientTimes(t * t, s * u);
    Exchange(Correlation(t, s, u), 1.0, u, s);
  }

  lemma GapTimes(s: real, t: real, u: real, b: real, w: real, ry: real, rx: real, rr: real)
    requires ry == u - b * t && rx == t - b * s && rr == ry - b * rx && w * s == t * t
    ensures s * (rr - (u - w)) == (b * s - t) * (b * s - t)
  {
    assert rr - (u - w) == w - b * t - b * (t - b * s);
    Expanded(s, t, b, w);
  }

  lemma Expanded(s: real, t: real, b: real, w: real)
    requires w * s == t * t
    ensures s * (w - b * t - b * (t - b * s)) == (b * s - t) * (b * s - t)
  {
  }

  /** So prices that lie on a sloping line score exactly 1. */
  lemma LinesScoreOne(close: seq<real>, window: nat, a: real, b: real)
    requires 1 <= window <= |close| && RSquared(close, window).Some?
    requires close[|close| - window..] == Mapped(Ramp(window), a, b)
    ensures RSquared(close, window).value == 1.0
  {
    hide Dot, Centered, Correlation;
    var x, y, r := X(window), Y(close, window), RSquared(close, window).value;
    var rest := seq(window, i => 0.0);
    CenteredMapped(Ramp(window), a, b);
    RSquaredIsExplained(close, window, a, rest);
    DotZero(rest);
    RSquaredBounds(close, window);
    if r < 1.0 { ProductSign(1.0 - r, Dot(y, y)); }
  }

  lemma {:induction false} DotZero(z: seq<real>)
    requires forall i :: 0 <= i < |z| ==> z[i] == 0.0
    ensures Dot(z, z) == 0.0
  {
    if z != [] { DotZero(z[..|z| - 1]); }
  }

  // ----- Any line -----

  lemma {:induction false} ShiftedSum(a: seq<real>, c: seq<real>, d: real)
    requires |a| == |c| && forall i :: 0 <= i < |a| ==> c[i] == a[i] + d
    ensures Sum(c) == Sum(a) + |a| as real * d
  {
    if a != [] {
      var n := |a| - 1;
      ShiftedSum(a[..n], c[..n], d);
      OneMore(n as real, d);
    }
  }

  lemma OneMore(n: real, d: real)
    ensures (n + 1.0) * d == n * d + d
  {
  }

  /** Centered values sum to zero. */
  lemma CenteredSum(s: seq<real>)
    requires s != []
    ensures Sum(Centered(s)) == 0.0
  {
    ShiftedSum(s, Centered(s), -Mean(s));
    QuotientTimes(Sum(s), |s| as real);
    assert |s| as real * -Mean(s) == -(Mean(s) * |s| as real);
  }

  lemma {:induction false} ShiftedSquares(a: seq<real>, c: seq<real>, d: real)
    requires |a| == |c| && forall i :: 0 <= i < |a| ==> c[i] == a[i] + d
    ensures Dot(c, c) == Dot(a, a) + 2.0 * (d * Sum(a)) + |a| as real * (d * d)
  {
    if a != [] {
      var n := |a| - 1;
      ShiftedSquares(a[..n], c[..n], d);
      SquareTerm(a[n], d, Sum(a[..n]));
      OneMore(n as real, d * d);
    }
  }

  lemma SquareTerm(x: real, d: real, sum: real)
    ensures (x + d) * (x + d) == x * x + 2.0 * (d * x) + d * d
    ensures d * (sum + x) == d * sum + d * x
  {
  }

  lemma {:induction false} SumOfDifference(x: seq<real>, y: seq<real>, r: seq<real>, slope: real)
    requires |x| == |y| == |r| && forall i :: 0 <= i < |r| ==> r[i] == y[i] - slope * x[i]
    ensures Sum(r) == Sum(y) - slope * Sum(x)
  {
    if r != [] {
      var n := |r| - 1;
      SumOfDifference(x[..n], y[..n], r[..n], slope);
      SlopeTerm(slope, Sum(x[..n]), x[n]);
    }
  }

  lemma SlopeTerm(slope: real, sum: real, x: real)
    ensures slope * (sum + x) == slope * sum + slope * x
  {
  }

  /** No line at all, whatever its slope and intercept, leaves less than 1 minus R-squared of the variation. */
  lemma NoLineFitsBetter(close: seq<real>, window: nat, intercept: real, slope: real, miss: seq<real>)
    requires 1 <= window <= |close| && RSquared(close, window).Some?
    requires |miss| == window
    requires forall i :: 0 <= i < window ==>
      miss[i] == close[|close| - window..][i] - (intercept + slope * Ramp(window)[i])
    ensures Dot(miss, miss) >= (1.0 - RSquared(close, window).value) * Dot(Y(close, window), Y(close, window))
  {
    hide RSquared, Sum, Dot;
    var x, y, cl := X(window), Y(close, window), close[|close| - window..];
    var rest := seq(window, i requires 0 <= i < window => y[i] - slope * x[i]);
    var d := Mean(cl) - intercept - slope * Mean(Ramp(window));
    forall i | 0 <= i < window ensures miss[i] == rest[i] + d {
      MissTerm(cl[i], Mean(cl), Ramp(window)[i], Mean(Ramp(window)), intercept, slope);
    }
    hide Mean, Centered;
    ShiftedSquares(rest, miss, d);
    SumOfDifference(x, y, rest, slope);
    CenteredSum(cl);
    CenteredSum(Ramp(window));
    NoShift(slope, d, Sum(rest));
    Square(d);
    ProductSign(window as real, d * d);
    RSquaredIsExplained(close, window, slope, rest);
  }

  lemma NoShift(slope: real, d: real, sum: real)
    requires sum == 0.0 - slope * 0.0
    ensures d * sum == 0.0
  {
  }

  lemma MissTerm(c: real, meanC: real, t: real, meanT: real, intercept: real, slope: real)
    ensures c - (intercept + slope * t) == ((c - meanC) - slope * (t - meanT)) + (meanC - intercept - slope * meanT)
  {
    Distribute(slope, t, meanT);
  }

  // ----- When it is defined -----

  ghost predicate Constant(s: seq<real>) { forall i, j :: 0 <= i < |s| && 0 <= j < |s| ==> s[i] == s[j] }

  lemma {:induction false} DotPositive(a: seq<real>, b: seq<real>)
    requires |a| == |b| && forall i :: 0 <= i < |a| ==> a[i] == b[i]
    ensures Dot(a, b) >= 0.0
    ensures (exists i :: 0 <= i < |a| && a[i] != 0.0) ==> Dot(a, b) > 0.0
  {
    if a != [] {
      var n := |a| - 1;
      DotPositive(a[..n], b[..n]);
      var square := a[n] * b[n];
      SameSign(a[n], b[n], square);
      if i :| 0 <= i < |a| && a[i] != 0.0 {
        if i < n { assert a[..n][i] != 0.0; }
      }
    }
  }

  lemma SameSign(x: real, y: real, square: real)
    requires x == y && square == x * y
    ensures square >= 0.0 && (x != 0.0 ==> square > 0.0)
  {
    ProductSign(x, y);
    ProductSign(-x, -y);
    assert (-x) * (-y) == x * y;
  }

  lemma VariationExactly(s: seq<real>)
    requires s != []
    ensures Dot(Centered(s), Centered(s)) > 0.0 <==> !Constant(s)
  {
    var z := Centered(s);
    if Constant(s) {
      MeanOfConstant(s);
      DotZero(z);
    } else {
      var i, j :| 0 <= i < |s| && 0 <= j < |s| && s[i] != s[j];
      assert z[i] - z[j] == s[i] - s[j];
      assert z[i] != 0.0 || z[j] != 0.0;
      DotPositive(z, z);
    }
  }

  lemma MeanOfConstant(s: seq<real>)
    requires s != [] && Constant(s)
    ensures forall i :: 0 <= i < |s| ==> s[i] == Mean(s)
  {
    SumConstant(s, s[0]);
    QuotientOf(Sum(s), |s| as real, s[0]);
  }

  /** R-squared is defined exactly for at least two bars in the window and closes that are not all equal. */
  lemma RSquaredDefinedExactly(close: seq<real>, window: nat)
    requires window >= 1
    ensures RSquared(close, window).Some?
       <==> 2 <= window <= |close| && !Constant(close[|close| - window..])
  {
    hide Dot, Centered;
    if window <= |close| {
      VariationExactly(Ramp(window));
      VariationExactly(close[|close| - window..]);
      RampVaries(window);
    }
  }

  lemma RampVaries(window: nat)
    requires window >= 1
    ensures Constant(Ramp(window)) <==> window == 1
  {
    if window > 1 { assert Ramp(window)[0] == 0.0 && Ramp(window)[1] == 1.0; }
  }
}
