/** What the robust scores mean: their size, their sign and their history
    (src/spy_der/features/normalization.py). */
module ScoreLaws {
  import opened Options
  import opened RealSeqs
  import opened Normalization

  /** A score counts deviations of 1.4826 times the median absolute deviation from the median: the value can be
      read back from it. Without deviation every score is 0. */
  lemma ScoreCountsDeviations(history: seq<real>, minSamples: int, value: real)
    requires ScoreOf(history, minSamples, value).Some?
    ensures var z, median, mad := ScoreOf(history, minSamples, value).value, Median(Sort(history)), Mad(history);
      if mad > 0.0 then
        && value == median + z * (1.4826 * mad)
        && (z > 0.0 <==> value > median) && (z < 0.0 <==> value < median)
      else z == 0.0
  {
    hide Median, Sort, Mad;
    var median, mad := Median(Sort(history)), Mad(history);
    if mad > 0.0 {
      var z := Standardized(value, median, mad);
      QuotientTimes(value - median, 1.4826 * mad);
      SignOfProduct(z, 1.4826 * mad);
    }
  }

  lemma SignOfProduct(z: real, scale: real)
    requires scale > 0.0
    ensures z > 0.0 <==> z * scale > 0.0
    ensures z < 0.0 <==> z * scale < 0.0
  {
    ProductSign(scale, z);
  }

  // ----- Medians -----

  /** The median of a sorted list has the lower half at or below it and the upper half at or above it; of an even
      number it is the middle of the two middle ones. */
  lemma MedianHalves(s: seq<real>)
    requires Sorted(s) && s != []
    ensures forall i :: 0 <= i < |s| && 2 * i <= |s| - 1 ==> s[i] <= Median(s)
    ensures forall i :: 0 <= i < |s| && 2 * i >= |s| - 1 ==> Median(s) <= s[i]
    ensures Median(s) - s[(|s| - 1) / 2] == s[|s| / 2] - Median(s)
  {
  }

  /** At least half of the history lies within the median absolute deviation of the median. */
  lemma HalfWithinDeviation(history: seq<real>)
    requires history != []
    ensures 2 * CountWithin(history, Median(Sort(history)), Mad(history)) >= |history|
  {
    hide Median, Sort;
    var median := Median(Sort(history));
    var deviations := Deviations(Sort(history), median);
    var sorted := Sort(deviations);
    MedianHalves(sorted);
    CountSorted(sorted, Mad(history), |sorted|);
    SortSameCount(deviations, Mad(history));
    DeviationCount(Sort(history), median, Mad(history));
    SortSameWithin(history, median, Mad(history));
  }

  function CountWithin(s: seq<real>, center: real, reach: real): nat {
    if s == [] then 0 else (if Abs(s[0] - center) <= reach then 1 else 0) + CountWithin(s[1..], center, reach)
  }

  function CountUpTo(s: seq<real>, reach: real): nat {
    if s == [] then 0 else (if s[0] <= reach then 1 else 0) + CountUpTo(s[1..], reach)
  }

  lemma {:induction false} CountSorted(s: seq<real>, reach: real, n: nat)
    requires |s| <= n && forall i :: 0 <= i < |s| && 2 * (i + n - |s|) <= n - 1 ==> s[i] <= reach
    ensures 2 * (CountUpTo(s, reach) + n - |s|) >= n
  {
    if s != [] && 2 * (n - |s|) <= n - 1 {
      assert s[0] <= reach;
      CountSorted(s[1..], reach, n);
    }
  }

  lemma {:induction false} DeviationCount(s: seq<real>, median: real, reach: real)
    ensures CountUpTo(Deviations(s, median), reach) == CountWithin(s, median, reach)
  {
    if s != [] {
      assert Deviations(s, median)[1..] == Deviations(s[1..], median);
      DeviationCount(s[1..], median, reach);
    }
  }

  lemma {:induction false} InsertCounts(x: real, s: seq<real>, center: real, reach: real)
    requires Sorted(s)
    ensures CountUpTo(Insert(x, s), reach) == (if x <= reach then 1 else 0) + CountUpTo(s, reach)
    ensures CountWithin(Insert(x, s), center, reach)
         == (if Abs(x - center) <= reach then 1 else 0) + CountWithin(s, center, reach)
  {
    if s == [] {
      assert [x][1..] == [];
    } else if x <= s[0] {
      assert ([x] + s)[1..] == s;
    } else {
      InsertCounts(x, s[1..], center, reach);
      assert ([s[0]] + Insert(x, s[1..]))[1..] == Insert(x, s[1..]);
    }
  }

  lemma {:induction false} SortSameCount(s: seq<real>, reach: real)
    ensures CountUpTo(Sort(s), reach) == CountUpTo(s, reach)
  {
    if s != [] {
      SortSameCount(s[1..], reach);
      InsertCounts(s[0], Sort(s[1..]), 0.0, reach);
    }
  }

  lemma {:induction false} SortSameWithin(s: seq<real>, center: real, reach: real)
    ensures CountWithin(Sort(s), center, reach) == CountWithin(s, center, reach)
  {
    if s != [] {
      SortSameWithin(s[1..], center, reach);
      InsertCounts(s[0], Sort(s[1..]), center, reach);
    }
  }

  // ----- The history a score is taken against -----

  /** The values observed for a key, in order. */
  function ValuesOf(run: seq<Observation>, key: string): seq<real> {
    if run == [] then []
    else
      var front, last := ValuesOf(run[..|run| - 1], key), run[|run| - 1];
      if last.key == key then front + [last.value] else front
  }

  function LastOf(s: seq<real>, window: nat): seq<real> { if |s| <= window then s else s[|s| - window..] }

  /** Every key stores its own last values, as many as the window holds. */
  lemma {:induction false} HistoryIsLastValues(window: nat, run: seq<Observation>, key: string)
    ensures History(After(map[], window, run), key) == LastOf(ValuesOf(run, key), window)
  {
    if run != [] {
      var front, last := run[..|run| - 1], run[|run| - 1];
      HistoryIsLastValues(window, front, key);
      if last.key == key { LastOfExtended(ValuesOf(front, key), window, last.value); }
    }
  }

  lemma LastOfExtended(s: seq<real>, window: nat, x: real)
    ensures Recorded(LastOf(s, window), window, x) == LastOf(s + [x], window)
  {
  }

  /** An observation scores exactly when enough earlier ones of its key are still in the window, and then
      against those. */
  lemma ScoredAgainstLastValues(window: nat, minSamples: int, run: seq<Observation>, i: nat)
    requires i < |run|
    ensures var earlier := LastOf(ValuesOf(run[..i], run[i].key), window);
      && (ScoreAt(window, minSamples, run, i).Some? <==> |earlier| >= minSamples)
      && ScoreAt(window, minSamples, run, i) == ScoreOf(earlier, minSamples, run[i].value)
  {
    HistoryIsLastValues(window, run[..i], run[i].key);
  }
}
