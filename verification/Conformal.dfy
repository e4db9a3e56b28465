/** Session-grouped split conformal calibration (src/spy_der/forecasting/conformal.py). */
module Conformal {
  import opened Options
  import opened RealSeqs

  // ----- numpy's default quantile -----

  function Ceil(x: real): int { -((-x).Floor) }

  lemma CeilBounds(x: real)
    ensures (Ceil(x) - 1) as real < x <= Ceil(x) as real
  {
  }

  /** Linear interpolation at virtual index (n - 1) * level of the sorted values. */
  function Quantile(values: seq<real>, level: real): real
    requires values != [] && 0.0 <= level <= 1.0
  {
    Interpolate(Sort(values), VirtualIndex(|values|, level))
  }

  function VirtualIndex(n: nat, level: real): (v: real)
    requires n > 0 && 0.0 <= level <= 1.0
    ensures 0.0 <= v <= (n - 1) as real
  {
    var m := (n - 1) as real;
    ProductSign(m, level);
    ProductSign(m, 1.0 - level);
    m * level
  }

  function PartOf(share: real, gap: real): real { share * gap }

  function Interpolate(sorted: seq<real>, virtual: real): real
    requires sorted != [] && 0.0 <= virtual <= (|sorted| - 1) as real
  {
    var i := virtual.Floor;
    if i + 1 >= |sorted| then sorted[|sorted| - 1]
    else sorted[i] + PartOf(virtual - i as real, sorted[i + 1] - sorted[i])
  }

  // ----- Counting -----

  function CountAtMost(xs: seq<real>, q: real): nat {
    if xs == [] then 0 else (if xs[0] <= q then 1 else 0) + CountAtMost(xs[1..], q)
  }

  function CountBelow(xs: seq<real>, q: real): nat {
    if xs == [] then 0 else (if xs[0] < q then 1 else 0) + CountBelow(xs[1..], q)
  }

  lemma {:induction false} CountInsert(x: real, s: seq<real>, q: real)
    requires Sorted(s)
    ensures CountAtMost(Insert(x, s), q) == (if x <= q then 1 else 0) + CountAtMost(s, q)
    ensures CountBelow(Insert(x, s), q) == (if x < q then 1 else 0) + CountBelow(s, q)
  {
    if s == [] {
      assert [x][1..] == [];
    } else if x <= s[0] {
      assert ([x] + s)[1..] == s;
    } else {
      CountInsert(x, s[1..], q);
      assert ([s[0]] + Insert(x, s[1..]))[1..] == Insert(x, s[1..]);
    }
  }

  lemma {:induction false} CountSort(xs: seq<real>, q: real)
    ensures CountAtMost(Sort(xs), q) == CountAtMost(xs, q)
    ensures CountBelow(Sort(xs), q) == CountBelow(xs, q)
  {
    if xs != [] {
      CountSort(xs[1..], q);
      CountInsert(xs[0], Sort(xs[1..]), q);
    }
  }

  /** In a sorted list everything up to index k - 1 is at most q, or everything from k on is at least q. */
  lemma {:induction false} CountPrefix(s: seq<real>, k: nat, q: real)
    requires Sorted(s) && k <= |s|
    ensures (k == 0 || s[k - 1] <= q) ==> CountAtMost(s, q) >= k
    ensures (k == |s| || q <= s[k]) ==> CountBelow(s, q) <= k
  {
    if s != [] {
      if k > 0 {
        CountPrefix(s[1..], k - 1, q);
      } else {
        CountPrefix(s[1..], 0, q);
        assert |s| > 1 ==> s[0] <= s[1];
      }
    }
  }

  // ----- The calibrator -----

  /** score = max(lower - y, y - upper, 0) */
  function Score(y: real, lower: real, upper: real): real {
    Max(Max(lower - y, y - upper), 0.0)
  }

  function Scores(y: seq<real>, lower: seq<real>, upper: seq<real>): (r: seq<real>)
    requires |y| == |lower| == |upper|
    ensures |r| == |y|
    ensures forall i :: 0 <= i < |r| ==> r[i] == Score(y[i], lower[i], upper[i])
  {
    seq(|y|, i requires 0 <= i < |y| => Score(y[i], lower[i], upper[i]))
  }

  /** ceil((n + 1) * coverage): how many calibration scores the correction must reach. */
  function Rank(n: nat, coverage: real): int {
    Ceil(ShareOf(n + 1, coverage))
  }

  function ShareOf(n: nat, coverage: real): real { n as real * coverage }

  function Level(n: nat, coverage: real): (level: real)
    requires n > 0
    ensures 0.0 <= level <= 1.0
  {
    LevelOfRank(n, Rank(n, coverage))
  }

  function LevelOfRank(n: nat, k: int): (level: real)
    requires n > 0
    ensures 0.0 <= level <= 1.0
  {
    Max(Min(1.0, k as real / n as real), 0.0)
  }

  function Correction(scores: seq<real>, coverage: real): real
    requires scores != []
  {
    Quantile(scores, Level(|scores|, coverage))
  }

  datatype FitSummary = FitSummary(alpha: real, quantileLevel: real, scoreMean: real, scoreMax: real)

  /** An empty refit only adds its flag to what an earlier fit recorded. */
  datatype Diagnostics = Diagnostics(emptyCalibration: bool, fit: Option<FitSummary>)

  datatype Interval = Interval(
    nominalCoverage: real,
    lower: real,
    upper: real,
    correction: real,
    supportRows: int,
    supportSessions: int,
    coverageLimited: bool)

  datatype Outcome<+T> = Ok(value: T) | ValueError | RuntimeError

  /** The widened interval, ends exchanged should they have crossed. */
  function Widened(lower: real, upper: real, corr: real): Bounds {
    var lo, hi := lower - corr, upper + corr;
    if lo > hi then Bounds(hi, lo) else Bounds(lo, hi)
  }

  datatype Bounds = Bounds(lo: real, hi: real)

  class SplitConformalCalibrator {
    const nominalCoverage: real
    const oodMultiplier: real
    const oodThreshold: real
    var correction: real
    var supportRows: int
    var supportSessions: int
    var calibrationSessions: set<string>
    var fitted: bool
    var diagnostics: Diagnostics

    constructor (nominalCoverage: real, oodMultiplier: real, oodThreshold: real)
      ensures this.nominalCoverage == nominalCoverage
      ensures this.oodMultiplier == oodMultiplier && this.oodThreshold == oodThreshold
      ensures !fitted && correction == 0.0 && supportRows == 0 && supportSessions == 0
      ensures calibrationSessions == {} && diagnostics == Diagnostics(false, None)
    {
      this.nominalCoverage := nominalCoverage;
      this.oodMultiplier := oodMultiplier;
      this.oodThreshold := oodThreshold;
      correction := 0.0;
      supportRows, supportSessions, calibrationSessions := 0, 0, {};
      fitted := false;
      diagnostics := Diagnostics(false, None);
    }

    /** An empty refit keeps the support recorded by an earlier one. */
    method Fit(y: seq<real>, lower: seq<real>, upper: seq<real>, sessions: seq<string>) returns (r: Outcome<()>)
      modifies this
      ensures r.ValueError? <==> |y| != |lower| || |y| != |upper|
      ensures r.ValueError? ==> unchanged(this)
      ensures !r.RuntimeError?
      ensures r.Ok? ==> fitted
      ensures r.Ok? && y == [] ==>
        && correction == 0.0 && diagnostics == old(diagnostics).(emptyCalibration := true)
        && supportRows == old(supportRows) && supportSessions == old(supportSessions)
        && calibrationSessions == old(calibrationSessions)
      ensures r.Ok? && y != [] ==>
        && correction == Correction(Scores(y, lower, upper), nominalCoverage)
        && supportRows == |y|
        && calibrationSessions == (set s | s in sessions)
        && supportSessions == |calibrationSessions|
        && diagnostics == Diagnostics(false, Some(FitSummary(
             1.0 - nominalCoverage, Level(|y|, nominalCoverage),
             Sum(Scores(y, lower, upper)) / |y| as real, MaxOf(Scores(y, lower, upper)))))
    {
      hide Level, Quantile, Sum, MaxOf;
      if |y| != |lower| || |y| != |upper| {
        return ValueError;
      }
      var scores := Scores(y, lower, upper);
      var n := |scores|;
      if n == 0 {
        correction := 0.0;
        fitted := true;
        diagnostics := diagnostics.(emptyCalibration := true);
        return Ok(());
      }
      var alpha := 1.0 - nominalCoverage;
      assert 1.0 - alpha == nominalCoverage;
      var level := Level(n, 1.0 - alpha);
      correction := Quantile(scores, level);
      supportRows := n;
      calibrationSessions := set s | s in sessions;
      supportSessions := |calibrationSessions|;
      fitted := true;
      diagnostics := Diagnostics(false, Some(FitSummary(alpha, level, Sum(scores) / n as real, MaxOf(scores))));
      return Ok(());
    }

    method Apply(lower: real, upper: real, oodScore: Option<real>) returns (r: Outcome<Interval>)
      ensures r.RuntimeError? <==> !fitted
      ensures !r.ValueError?
      ensures r.Ok? ==>
        var limited := oodScore.Some? && oodScore.value >= oodThreshold;
        var corr := if limited then correction * oodMultiplier else correction;
        && Bounds(r.value.lower, r.value.upper) == Widened(lower, upper, corr)
        && r.value.correction == corr && r.value.coverageLimited == limited
        && r.value.nominalCoverage == nominalCoverage
        && r.value.supportRows == supportRows && r.value.supportSessions == supportSessions
    {
      if !fitted {
        return RuntimeError;
      }
      var corr := correction;
      var coverageLimited := false;
      if oodScore.Some? && oodScore.value >= oodThreshold {
        corr := corr * oodMultiplier;
        coverageLimited := true;
      }
      var lo, hi := lower - corr, upper + corr;
      if lo > hi {
        lo, hi := hi, lo;
      }
      return Ok(Interval(nominalCoverage, lo, hi, corr, supportRows, supportSessions, coverageLimited));
    }
  }

  // ----- The counting guarantee -----

  /** Where the interpolated quantile lands among the sorted scores. */
  lemma QuantileBrackets(scores: seq<real>, coverage: real)
    requires scores != []
    ensures var n, k, s, q := |scores|, Rank(|scores|, coverage), Sort(scores), Correction(scores, coverage);
      && (k >= n ==> q == s[n - 1])
      && (0 < k < n ==> s[k - 1] <= q <= s[k])
      && (k <= 0 ==> q == s[0])
  {
    hide Rank, Sort, LevelOfRank, VirtualIndex, Interpolate;
    var n, k, s := |scores|, Rank(|scores|, coverage), Sort(scores);
    IndexByRank(n, k);
    InterpolateAtEnds(s);
    if 0 < k < n {
      InterpolateBetween(s, k, VirtualIndex(n, LevelOfRank(n, k)));
    }
  }

  lemma InterpolateAtEnds(s: seq<real>)
    requires s != []
    ensures Interpolate(s, (|s| - 1) as real) == s[|s| - 1]
    ensures Interpolate(s, 0.0) == s[0]
  {
    assert 0.0.Floor == 0 && ((|s| - 1) as real).Floor == |s| - 1;
  }

  lemma InterpolateBetween(s: seq<real>, k: nat, virtual: real)
    requires Sorted(s) && 0 < k < |s| && (k - 1) as real <= virtual < k as real
    ensures s[k - 1] <= Interpolate(s, virtual) <= s[k]
  {
    hide PartOf;
    assert virtual.Floor == k - 1;
    WithinGap(virtual - (k - 1) as real, s[k] - s[k - 1]);
  }

  lemma WithinGap(f: real, gap: real)
    requires 0.0 <= f <= 1.0 && gap >= 0.0
    ensures 0.0 <= PartOf(f, gap) <= gap
  {
    ProductSign(f, gap);
    ProductSign(1.0 - f, gap);
    OneLess(f, gap);
  }

  lemma OneLess(f: real, gap: real)
    ensures (1.0 - f) * gap == gap - f * gap
    ensures (f - 1.0) * gap == f * gap - gap
  {
  }

  lemma FractionOfOne(k: int, n: int, q: real)
    requires n > 0 && q * n as real == k as real
    ensures k >= n ==> q >= 1.0
    ensures k < n ==> q < 1.0
    ensures k <= 0 ==> q <= 0.0
    ensures k > 0 ==> q > 0.0
  {
    var size := n as real;
    OneLess(q, size);
    SignOf(q - 1.0, size);
    SignOf(q, size);
  }

  lemma SignOf(x: real, size: real)
    requires size > 0.0
    ensures x > 0.0 ==> x * size > 0.0
    ensures x < 0.0 ==> x * size < 0.0
    ensures x == 0.0 ==> x * size == 0.0
  {
    ProductSign(size, x);
  }

  /** For 0 < k < n the virtual index (n - 1) * k / n is k - k / n: between k - 1 and k. */
  lemma IndexByRank(n: nat, k: int)
    requires n > 0
    ensures var v := VirtualIndex(n, LevelOfRank(n, k));
      && (k >= n ==> v == (n - 1) as real)
      && (k <= 0 ==> v == 0.0)
      && (0 < k < n ==> (k - 1) as real <= v < k as real)
  {
    var q := k as real / n as real;
    QuotientTimes(k as real, n as real);
    FractionOfOne(k, n, q);
    OneLess(n as real, q);
  }

  lemma ShareTimes(n: nat, coverage: real)
    ensures ShareOf(n, coverage) == n as real * coverage
  {
  }

  lemma RankCounts(scores: seq<real>, coverage: real)
    requires scores != []
    ensures var n, k, q := |scores|, Rank(|scores|, coverage), Correction(scores, coverage);
      && CountAtMost(scores, q) >= (if k < n then k else n)
      && (k < n ==> CountBelow(scores, q) <= (if k > 0 then k else 0))
  {
    hide Correction, Rank;
    var n, k, s, q := |scores|, Rank(|scores|, coverage), Sort(scores), Correction(scores, coverage);
    QuantileBrackets(scores, coverage);
    CountSort(scores, q);
    if k >= n {
      CountPrefix(s, n, q);
    } else if k > 0 {
      CountPrefix(s, k, q);
    } else {
      CountPrefix(s, 0, q);
    }
  }

  lemma RankBounds(n: nat, coverage: real)
    ensures var target := (n + 1) as real * coverage;
      target <= Rank(n, coverage) as real < target + 1.0
  {
    hide Ceil, ShareOf;
    ShareTimes(n + 1, coverage);
    CeilBounds(ShareOf(n + 1, coverage));
  }

  /** The correction reaches at least min(n, ceil((n + 1) c)) scores, and when that rank is below n,
      at most so many lie strictly below it. */
  lemma CorrectionCounts(scores: seq<real>, coverage: real)
    requires scores != []
    ensures var n, k, q := |scores|, Rank(|scores|, coverage), Correction(scores, coverage);
      && CountAtMost(scores, q) >= (if k < n then k else n)
      && (k < n ==> CountBelow(scores, q) <= (if k > 0 then k else 0))
    ensures var q, target := Correction(scores, coverage), (|scores| + 1) as real * coverage;
      && (CountAtMost(scores, q) as real >= target || CountAtMost(scores, q) >= |scores|)
      && (0.0 <= target <= (|scores| - 1) as real ==> CountBelow(scores, q) as real < target + 1.0)
  {
    hide Correction, Rank, CountAtMost, CountBelow;
    RankCounts(scores, coverage);
    RankBounds(|scores|, coverage);
  }

  predicate CoveredBy(y: real, lower: real, upper: real, corr: real) {
    var widened := Widened(lower, upper, corr);
    widened.lo <= y <= widened.hi
  }

  function CountCovered(y: seq<real>, lower: seq<real>, upper: seq<real>, corr: real): nat
    requires |y| == |lower| == |upper|
  {
    if y == [] then 0
    else
      (if CoveredBy(y[0], lower[0], upper[0], corr) then 1 else 0)
      + CountCovered(y[1..], lower[1..], upper[1..], corr)
  }

  /** The ends of the widened interval are the moved ends, exchanged if they have crossed. */
  lemma WidenedIsOrdered(lower: real, upper: real, corr: real)
    ensures var w := Widened(lower, upper, corr);
      w.lo <= w.hi && multiset{w.lo, w.hi} == multiset{lower - corr, upper + corr}
  {
  }

  /** A point whose score the correction reaches is covered, and the ends have not crossed;
      for a well-ordered base interval that is the only way to be covered. */
  lemma ReachedMeansCovered(y: real, lower: real, upper: real, corr: real)
    requires corr >= 0.0
    ensures Score(y, lower, upper) <= corr ==> CoveredBy(y, lower, upper, corr) && lower - corr <= upper + corr
    ensures lower <= upper ==> (CoveredBy(y, lower, upper, corr) <==> Score(y, lower, upper) <= corr)
  {
  }

  lemma {:induction false} CoveredAtLeastReached(y: seq<real>, lower: seq<real>, upper: seq<real>, corr: real)
    requires |y| == |lower| == |upper| && corr >= 0.0
    ensures CountCovered(y, lower, upper, corr) >= CountAtMost(Scores(y, lower, upper), corr)
  {
    if y != [] {
      ReachedMeansCovered(y[0], lower[0], upper[0], corr);
      assert Scores(y, lower, upper)[1..] == Scores(y[1..], lower[1..], upper[1..]);
      CoveredAtLeastReached(y[1..], lower[1..], upper[1..], corr);
    }
  }

  lemma CorrectionNonNegative(y: seq<real>, lower: seq<real>, upper: seq<real>, coverage: real)
    requires |y| == |lower| == |upper| && y != []
    ensures Correction(Scores(y, lower, upper), coverage) >= 0.0
  {
    hide Correction, Rank;
    var scores := Scores(y, lower, upper);
    var s := Sort(scores);
    QuantileBrackets(scores, coverage);
    forall i | 0 <= i < |s| ensures s[i] >= 0.0 {
      assert s[i] in multiset(s);
      assert s[i] in scores;
    }
  }

  /** At least (n + 1) c points, and so ceil((n + 1) c), or all of them. */
  predicate CoversEnough(covered: nat, n: nat, coverage: real) {
    covered >= n || (covered >= Rank(n, coverage) && covered as real >= (n + 1) as real * coverage)
  }

  /** The finite-sample guarantee: a fit covers enough of its own calibration points ... */
  lemma CalibrationCoverage(y: seq<real>, lower: seq<real>, upper: seq<real>, coverage: real)
    requires |y| == |lower| == |upper| && y != []
    ensures CoversEnough(CountCovered(y, lower, upper, Correction(Scores(y, lower, upper), coverage)), |y|, coverage)
  {
    hide Correction, Rank, Scores, CountCovered, CountAtMost, CountBelow, CoversEnough;
    var scores := Scores(y, lower, upper);
    var q := Correction(scores, coverage);
    CorrectionNonNegative(y, lower, upper, coverage);
    CoveredAtLeastReached(y, lower, upper, q);
    EnoughReached(scores, |y|, coverage, CountCovered(y, lower, upper, q));
  }

  lemma EnoughReached(scores: seq<real>, n: nat, coverage: real, covered: nat)
    requires scores != [] && n == |scores| && covered >= CountAtMost(scores, Correction(scores, coverage))
    ensures CoversEnough(covered, n, coverage)
  {
    hide Correction, Rank, CountAtMost, CountBelow;
    CorrectionCounts(scores, coverage);
  }

  /** ... and hence at least the nominal fraction of them. */
  lemma CalibrationFraction(y: seq<real>, lower: seq<real>, upper: seq<real>, coverage: real)
    requires |y| == |lower| == |upper| && y != [] && coverage <= 1.0
    ensures MeetsFraction(CountCovered(y, lower, upper, Correction(Scores(y, lower, upper), coverage)), |y|, coverage)
  {
    hide Correction, Rank, Scores, CountCovered, MeetsFraction;
    CalibrationCoverage(y, lower, upper, coverage);
    RankReaches(|y|, coverage, CountCovered(y, lower, upper, Correction(Scores(y, lower, upper), coverage)));
  }

  predicate MeetsFraction(covered: nat, n: nat, coverage: real) {
    covered as real >= coverage * n as real
  }

  lemma RankReaches(n: nat, coverage: real, covered: nat)
    requires coverage <= 1.0 && (covered >= n || covered >= Rank(n, coverage))
    ensures MeetsFraction(covered, n, coverage)
  {
    var m := n as real;
    CeilBounds((n + 1) as real * coverage);
    ProductSign(m, 1.0 - coverage);
    ProductSign(m, coverage);
    assert (n + 1) as real * coverage == m * coverage + coverage;
    assert m * (1.0 - coverage) == m - m * coverage;
  }

  /** An out-of-distribution multiplier of at least one only widens a well-ordered interval. */
  lemma OodOnlyWidens(lower: real, upper: real, corr: real, multiplier: real)
    requires corr >= 0.0 && multiplier >= 1.0 && lower <= upper
    ensures var plain, wide := Widened(lower, upper, corr), Widened(lower, upper, corr * multiplier);
      wide.lo <= plain.lo <= lower <= upper <= plain.hi <= wide.hi
  {
    ProductSign(corr, multiplier - 1.0);
    assert corr * multiplier == corr * (multiplier - 1.0) + corr;
  }
}
