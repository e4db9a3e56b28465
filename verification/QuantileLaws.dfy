/** What the linear quantile means, and where the conformal correction lands
    (src/spy_der/forecasting/conformal.py). */
module QuantileLaws {
  import opened RealSeqs
  import opened Conformal
  import opened Normalization

  // ----- Interpolation -----

  /** At a whole index the quantile is the sorted value. */
  lemma WholeIndex(s: seq<real>, k: nat)
    requires k < |s|
    ensures Interpolate(s, k as real) == s[k]
  {
    assert (k as real).Floor == k;
    if k + 1 < |s| { NoPart(s[k + 1] - s[k]); }
  }

  lemma NoPart(gap: real)
    ensures PartOf(0.0, gap) == 0.0
  {
  }

  lemma OnSegment(s: seq<real>, k: nat, u: real)
    requires k + 1 < |s| && k as real <= u <= (k + 1) as real
    ensures Interpolate(s, u) == s[k] + (u - k as real) * (s[k + 1] - s[k])
  {
    if u == (k + 1) as real {
      WholeIndex(s, k + 1);
    } else {
      assert u.Floor == k;
    }
  }

  /** Between two whole indices it moves in proportion to the index. */
  lemma QuantileMovesInProportion(s: seq<real>, k: nat, u: real, v: real)
    requires k + 1 < |s| && k as real <= u <= v <= (k + 1) as real
    ensures Interpolate(s, v) - Interpolate(s, u) == (v - u) * (s[k + 1] - s[k])
  {
    OnSegment(s, k, u);
    OnSegment(s, k, v);
    SharesApart(v - k as real, u - k as real, s[k + 1] - s[k]);
  }

  lemma SharesApart(v: real, u: real, gap: real)
    ensures (v - u) * gap == v * gap - u * gap
  {
  }

  // ----- The mirror image -----

  function Negated(s: seq<real>): (r: seq<real>)
    ensures |r| == |s|
  {
    seq(|s|, i requires 0 <= i < |s| => -s[i])
  }

  /** The quantile of the negated values at 1 - level is minus the quantile at level. */
  lemma QuantileMirrors(values: seq<real>, level: real)
    requires values != [] && 0.0 <= level <= 1.0
    ensures Quantile(Negated(values), 1.0 - level) == -Quantile(values, level)
  {
    hide Interpolate, VirtualIndex, Sort;
    NegatedIsMirrored(values);
    MirroredIndex(|values|, level);
    InterpolateMirrors(Sort(values), Sort(Negated(values)), VirtualIndex(|values|, level));
  }

  lemma NegatedIsMirrored(values: seq<real>)
    ensures var s, t := Sort(values), Sort(Negated(values));
      |t| == |s| && forall i :: 0 <= i < |s| ==> t[i] == -s[|s| - 1 - i]
  {
    hide Sort;
    assert forall x :: Affine(-1.0, 0.0, x) == -x;
    assert Map(values, -1.0, 0.0) == Negated(values);
    SortMapped(values, -1.0, 0.0);
  }

  lemma MirroredIndex(n: nat, level: real)
    requires n > 0 && 0.0 <= level <= 1.0
    ensures VirtualIndex(n, 1.0 - level) == (n - 1) as real - VirtualIndex(n, level)
  {
    Distribute((n - 1) as real, 1.0, level);
  }

  lemma InterpolateMirrors(s: seq<real>, t: seq<real>, v: real)
    requires |s| == |t| >= 1 && (forall i :: 0 <= i < |s| ==> t[i] == -s[|s| - 1 - i])
    requires 0.0 <= v <= (|s| - 1) as real
    ensures Interpolate(t, (|s| - 1) as real - v) == -Interpolate(s, v)
  {
    hide Interpolate;
    var n := |s|;
    if v == (n - 1) as real {
      WholeIndex(s, n - 1);
      WholeIndex(t, 0);
    } else {
      var k := v.Floor;
      var j := n - 2 - k;
      OnSegment(s, k, v);
      OnSegment(t, j, (n - 1) as real - v);
      assert (n - 1) as real - v - j as real == 1.0 - (v - k as real);
      FromTheOtherEnd(v - k as real, (n - 1) as real - v - j as real, s[k], s[k + 1]);
    }
  }

  lemma FromTheOtherEnd(f: real, g: real, x: real, y: real)
    requires g == 1.0 - f
    ensures -y + g * (-x - -y) == -(x + f * (y - x))
  {
    OneLess(f, y - x);
  }

  // ----- Where the correction lands -----

  function Mix(share: real, x: real, y: real): real { share * x + (1.0 - share) * y }

  /** For a rank k below n the correction divides the gap between the k-th and the next sorted score: it takes
      k / n of the lower and the rest of the upper one. */
  lemma CorrectionIsWeighted(scores: seq<real>, coverage: real)
    requires scores != [] && 0 < Rank(|scores|, coverage) < |scores|
    ensures var n, k, s := |scores|, Rank(|scores|, coverage), Sort(scores);
      var lower := k as real / n as real;
      Correction(scores, coverage) == Mix(lower, s[k - 1], s[k])
  {
    hide Interpolate, Rank, VirtualIndex, Sort, LevelOfRank, Mix;
    var n, k, s := |scores|, Rank(|scores|, coverage), Sort(scores);
    RankIndex(n, k);
    SegmentMix(s, k, k as real / n as real, VirtualIndex(n, LevelOfRank(n, k)));
  }

  lemma PartMix(lower: real, x: real, y: real)
    ensures x + PartOf(1.0 - lower, y - x) == Mix(lower, x, y)
  {
    Weighted(lower, x, y);
  }

  lemma SegmentMix(s: seq<real>, k: nat, lower: real, v: real)
    requires 0 < k < |s| && 0.0 < lower < 1.0 && v == k as real - lower
    ensures 0.0 <= v <= (|s| - 1) as real && Interpolate(s, v) == Mix(lower, s[k - 1], s[k])
  {
    hide PartOf, Mix;
    assert v.Floor == k - 1;
    assert v - (k - 1) as real == 1.0 - lower;
    PartMix(lower, s[k - 1], s[k]);
  }

  lemma RankIndex(n: nat, k: int)
    requires 0 < k < n
    ensures VirtualIndex(n, LevelOfRank(n, k)) == k as real - k as real / n as real
    ensures 0.0 < k as real / n as real < 1.0
  {
    var q := k as real / n as real;
    QuotientTimes(k as real, n as real);
    FractionOfOne(k, n, q);
    OneLess(n as real, q);
  }

  lemma Weighted(lower: real, x: real, y: real)
    ensures x + (1.0 - lower) * (y - x) == Mix(lower, x, y)
  {
  }

  /** So with distinct neighbours exactly k scores lie below the correction, and none at it. */
  lemma ExactlyRankBelow(scores: seq<real>, coverage: real)
    requires scores != [] && 0 < Rank(|scores|, coverage) < |scores|
    requires Sort(scores)[Rank(|scores|, coverage) - 1] < Sort(scores)[Rank(|scores|, coverage)]
    ensures var q := Correction(scores, coverage);
      CountBelow(scores, q) == CountAtMost(scores, q) == Rank(|scores|, coverage)
  {
    hide Correction, Rank, Mix, Sort, CountBelow, CountAtMost;
    var n, k, s, q := |scores|, Rank(|scores|, coverage), Sort(scores), Correction(scores, coverage);
    RankIndex(n, k);
    CorrectionIsWeighted(scores, coverage);
    StrictlyBetween(k as real / n as real, s[k - 1], s[k], q);
    CountSort(scores, q);
    CountSplit(s, k, q);
  }

  lemma StrictlyBetween(lower: real, x: real, y: real, q: real)
    requires 0.0 < lower < 1.0 && x < y && q == Mix(lower, x, y)
    ensures x < q < y
  {
    ProductSign(1.0 - lower, y - x);
    ProductSign(lower, y - x);
    Weighted(lower, x, y);
    OneLess(lower, y - x);
  }

  lemma {:induction false} CountSplit(s: seq<real>, k: nat, q: real)
    requires Sorted(s) && k <= |s|
    requires k > 0 ==> s[k - 1] < q
    requires k < |s| ==> q < s[k]
    ensures CountBelow(s, q) == CountAtMost(s, q) == k
  {
    if s != [] {
      if k > 0 {
        CountSplit(s[1..], k - 1, q);
      } else {
        assert |s| > 1 ==> s[0] <= s[1];
        CountSplit(s[1..], 0, q);
      }
    }
  }
}
