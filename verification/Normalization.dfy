/** The robust rolling standardizer (src/spy_der/features/normalization.py). */
module Normalization {
  import opened Options
  import opened RealSeqs

  const MAD_TO_STD: real := 1.4826

  function Median(ordered: seq<real>): real {
    var n := |ordered|;
    var mid := n / 2;
    if n == 0 then 0.0
    else if n % 2 == 1 then ordered[mid]
    else (ordered[mid - 1] + ordered[mid]) / 2.0
  }

  function Deviations(ordered: seq<real>, median: real): (r: seq<real>)
    ensures |r| == |ordered|
  {
    seq(|ordered|, i requires 0 <= i < |ordered| => Abs(ordered[i] - median))
  }

  /** Median absolute deviation. */
  function Mad(history: seq<real>): real {
    var ordered := Sort(history);
    Median(Sort(Deviations(ordered, Median(ordered))))
  }

  /** The score of a value against a history it is not part of; None until warm. */
  function ScoreOf(history: seq<real>, minSamples: int, value: real): Option<real> {
    if |history| < minSamples then None else Some(Standardized(value, Median(Sort(history)), Mad(history)))
  }

  function Standardized(value: real, median: real, mad: real): real {
    var scale := MAD_TO_STD * mad;
    if scale > 0.0 then (value - median) / scale else 0.0
  }

  /** The bounded window after recording a value: the oldest goes first. */
  function Recorded(history: seq<real>, window: nat, value: real): (r: seq<real>)
    ensures |r| <= window
  {
    var grown := history + [value];
    if |grown| <= window then grown else grown[|grown| - window..]
  }

  function History(values: map<string, seq<real>>, key: string): seq<real> {
    if key in values then values[key] else []
  }

  class RobustStandardizer {
    const window: nat
    const minSamples: int
    var values: map<string, seq<real>>

    constructor (window: nat, minSamples: int)
      ensures this.window == window && this.minSamples == minSamples && values == map[]
    {
      this.window := window;
      this.minSamples := minSamples;
      values := map[];
    }

    /** Scores first, then records: an observation never standardizes against itself. */
    method Score(key: string, value: real) returns (result: Option<real>)
      modifies this
      ensures result == ScoreOf(History(old(values), key), minSamples, value)
      ensures values == old(values)[key := Recorded(History(old(values), key), window, value)]
    {
      hide Standardized, Sort, Median, Deviations;
      var history := if key in values then values[key] else [];
      result := None;
      if |history| >= minSamples {
        var ordered := Sort(history);
        var median := Median(ordered);
        var mad := Median(Sort(Deviations(ordered, median)));
        result := Some(Standardized(value, median, mad));
      }
      history := history + [value];
      if |history| > window {
        history := history[|history| - window..];
      }
      values := values[key := history];
    }
  }

  // ----- Runs of observations -----

  datatype Observation = Observation(key: string, value: real)

  /** The stored values after a run. */
  function After(values: map<string, seq<real>>, window: nat, run: seq<Observation>): map<string, seq<real>> {
    if run == [] then values
    else
      var before, o := After(values, window, run[..|run| - 1]), run[|run| - 1];
      before[o.key := Recorded(History(before, o.key), window, o.value)]
  }

  /** The score returned for the i-th observation of a run. */
  function ScoreAt(window: nat, minSamples: int, run: seq<Observation>, i: nat): Option<real>
    requires i < |run|
  {
    ScoreOf(History(After(map[], window, run[..i]), run[i].key), minSamples, run[i].value)
  }

  /** The whole run through the object returns exactly these scores. */
  method ScoreAll(s: RobustStandardizer, run: seq<Observation>) returns (scores: seq<Option<real>>)
    requires s.values == map[]
    modifies s
    ensures |scores| == |run| && forall i :: 0 <= i < |run| ==> scores[i] == ScoreAt(s.window, s.minSamples, run, i)
    ensures s.values == After(map[], s.window, run)
  {
    hide ScoreOf, Recorded;
    scores := [];
    for i := 0 to |run|
      invariant s.values == After(map[], s.window, run[..i])
      invariant |scores| == i && forall j :: 0 <= j < i ==> scores[j] == ScoreAt(s.window, s.minSamples, run, j)
    {
      assert run[..i + 1][..i] == run[..i];
      var score := s.Score(run[i].key, run[i].value);
      scores := scores + [score];
    }
    assert run[..|run|] == run;
  }

  // ----- Affine equivariance -----

  function Affine(a: real, b: real, x: real): real { a * x + b }

  function Map(s: seq<real>, a: real, b: real): (r: seq<real>)
    ensures |r| == |s|
    ensures forall i :: 0 <= i < |s| ==> r[i] == Affine(a, b, s[i])
  {
    seq(|s|, i requires 0 <= i < |s| => Affine(a, b, s[i]))
  }

  function Reverse(s: seq<real>): (r: seq<real>)
    ensures |r| == |s|
    ensures forall i :: 0 <= i < |s| ==> r[i] == s[|s| - 1 - i]
  {
    seq(|s|, i requires 0 <= i < |s| => s[|s| - 1 - i])
  }

  lemma MapCons(x: real, s: seq<real>, a: real, b: real)
    ensures Map([x] + s, a, b) == [Affine(a, b, x)] + Map(s, a, b)
  {
    hide Affine;
  }

  /** Sorting commutes with mapping, as multisets. */
  lemma {:induction false} MapInsert(x: real, s: seq<real>, a: real, b: real)
    requires Sorted(s)
    ensures multiset(Map(Insert(x, s), a, b)) == multiset{Affine(a, b, x)} + multiset(Map(s, a, b))
  {
    hide Map, Affine;
    MapCons(x, s, a, b);
    if s == [] {
      assert [x] + s == [x];
    } else if x > s[0] {
      MapInsert(x, s[1..], a, b);
      MapCons(s[0], s[1..], a, b);
      MapCons(s[0], Insert(x, s[1..]), a, b);
      assert s == [s[0]] + s[1..];
    }
  }

  lemma {:induction false} MapSort(s: seq<real>, a: real, b: real)
    ensures multiset(Map(Sort(s), a, b)) == multiset(Map(s, a, b))
  {
    hide Map, Affine;
    if s != [] {
      MapSort(s[1..], a, b);
      MapInsert(s[0], Sort(s[1..]), a, b);
      MapCons(s[0], s[1..], a, b);
      assert s == [s[0]] + s[1..];
    } else {
      assert Sort(s) == s;
    }
  }

  lemma {:induction false} ReverseMultiset(s: seq<real>)
    ensures multiset(Reverse(s)) == multiset(s)
  {
    if s != [] {
      var front, last := s[..|s| - 1], s[|s| - 1];
      ReverseMultiset(front);
      assert Reverse(s) == [last] + Reverse(front);
      assert s == front + [last];
    }
  }

  lemma MapMonotone(x: real, y: real, a: real, b: real)
    requires x <= y
    ensures a > 0.0 ==> Affine(a, b, x) <= Affine(a, b, y)
    ensures a < 0.0 ==> Affine(a, b, y) <= Affine(a, b, x)
  {
    if a > 0.0 { ProductSign(a, y - x); assert a * (y - x) == a * y - a * x; }
    if a < 0.0 { ProductSign(-a, y - x); assert (-a) * (y - x) == a * x - a * y; }
  }

  /** An increasing map keeps the sorted order, a decreasing one turns it round. */
  lemma SortMapped(s: seq<real>, a: real, b: real)
    ensures a > 0.0 ==> Sort(Map(s, a, b)) == Map(Sort(s), a, b)
    ensures a < 0.0 ==> Sort(Map(s, a, b)) == Reverse(Map(Sort(s), a, b))
  {
    hide Sort, Affine;
    var t := Map(Sort(s), a, b);
    MapSort(s, a, b);
    ReverseMultiset(t);
    forall i, j | 0 <= i < j < |t| ensures (a > 0.0 ==> t[i] <= t[j]) && (a < 0.0 ==> t[j] <= t[i]) {
      MapMonotone(Sort(s)[i], Sort(s)[j], a, b);
    }
    if a > 0.0 {
      SortedUnique(Sort(Map(s, a, b)), t);
    } else if a < 0.0 {
      SortedUnique(Sort(Map(s, a, b)), Reverse(t));
    }
  }

  lemma MedianMapped(s: seq<real>, a: real, b: real)
    requires s != []
    ensures Median(Map(s, a, b)) == Affine(a, b, Median(s))
    ensures Median(Reverse(s)) == Median(s)
  {
    hide Affine;
    var n := |s|;
    var mid := n / 2;
    if n % 2 == 0 {
      MidpointMapped(s[mid - 1], s[mid], a, b);
    }
  }

  lemma MidpointMapped(x: real, y: real, a: real, b: real)
    ensures (Affine(a, b, x) + Affine(a, b, y)) / 2.0 == Affine(a, b, (x + y) / 2.0)
  {
    assert a * (x + y) == a * x + a * y;
  }

  lemma MedianEquivariant(s: seq<real>, a: real, b: real)
    requires s != [] && a != 0.0
    ensures Median(Sort(Map(s, a, b))) == Affine(a, b, Median(Sort(s)))
  {
    hide Median, Sort, Affine;
    SortMapped(s, a, b);
    MedianMapped(Sort(s), a, b);
    MedianMapped(Map(Sort(s), a, b), a, b);
  }

  lemma AbsScaled(a: real, x: real)
    ensures Abs(a * x) == Abs(a) * Abs(x)
  {
    ProductSign(a, x);
    ProductSign(-a, x);
    ProductSign(a, -x);
    ProductSign(-a, -x);
    assert (-a) * x == -(a * x) && a * (-x) == -(a * x) && (-a) * (-x) == a * x;
  }

  /** Deviations from the median scale by |a|. */
  lemma DeviationsMapped(s: seq<real>, median: real, a: real, b: real)
    ensures Deviations(Map(s, a, b), Affine(a, b, median)) == Map(Deviations(s, median), Abs(a), 0.0)
  {
    hide Affine, Abs;
    var d := Deviations(Map(s, a, b), Affine(a, b, median));
    forall i | 0 <= i < |s| ensures d[i] == Map(Deviations(s, median), Abs(a), 0.0)[i] {
      DeviationScaled(s[i], median, a, b);
    }
  }

  lemma DeviationScaled(x: real, m: real, a: real, b: real)
    ensures Abs(Affine(a, b, x) - Affine(a, b, m)) == Affine(Abs(a), 0.0, Abs(x - m))
  {
    AbsScaled(a, x - m);
    assert Affine(a, b, x) - Affine(a, b, m) == a * (x - m);
  }

  lemma DeviationsReversed(s: seq<real>, median: real)
    ensures Deviations(Reverse(s), median) == Reverse(Deviations(s, median))
  {
  }

  lemma SortReversed(s: seq<real>)
    ensures Sort(Reverse(s)) == Sort(s)
  {
    hide Sort, Reverse;
    ReverseMultiset(s);
    SortedUnique(Sort(Reverse(s)), Sort(s));
  }

  lemma MadEquivariant(s: seq<real>, a: real, b: real)
    requires s != [] && a != 0.0
    ensures Mad(Map(s, a, b)) == Affine(Abs(a), 0.0, Mad(s))
  {
    hide Median, Sort, Deviations, Map, Reverse, Abs, Affine;
    var ordered, median := Sort(s), Median(Sort(s));
    MedianEquivariant(s, a, b);
    SortMapped(s, a, b);
    var d := Deviations(ordered, median);
    DeviationsMapped(ordered, median, a, b);
    DeviationsReversed(Map(ordered, a, b), Affine(a, b, median));
    SortReversed(Deviations(Map(ordered, a, b), Affine(a, b, median)));
    AbsPositive(a);
    MedianEquivariant(d, Abs(a), 0.0);
  }

  lemma AbsPositive(a: real)
    requires a != 0.0
    ensures Abs(a) > 0.0
  {
  }

  function SignOf(a: real): real { if a > 0.0 then 1.0 else -1.0 }

  ghost predicate ScoresMatch(plain: Option<real>, mapped: Option<real>, a: real) {
    (plain.None? <==> mapped.None?) && (plain.Some? ==> mapped.value == SignOf(a) * plain.value)
  }

  /** One score: an affine change of the history and the value keeps it, up to the sign of the slope. */
  lemma ScoreEquivariant(history: seq<real>, minSamples: int, value: real, a: real, b: real)
    requires a != 0.0
    ensures ScoresMatch(ScoreOf(history, minSamples, value),
                        ScoreOf(Map(history, a, b), minSamples, Affine(a, b, value)), a)
  {
    hide Median, Sort, Mad, Map, Affine;
    if history == [] {
      EmptyScores(minSamples, value);
      EmptyScores(minSamples, Affine(a, b, value));
      assert Map(history, a, b) == [];
    } else {
      MedianEquivariant(history, a, b);
      MadEquivariant(history, a, b);
      ScaledScore(value, Median(Sort(history)), Mad(history), a, b);
    }
  }

  lemma EmptyScores(minSamples: int, value: real)
    ensures ScoreOf([], minSamples, value) == if 0 < minSamples then None else Some(0.0)
  {
    assert Mad([]) == 0.0;
  }

  lemma ScaledScore(value: real, median: real, mad: real, a: real, b: real)
    requires a != 0.0
    ensures Standardized(Affine(a, b, value), Affine(a, b, median), Affine(Abs(a), 0.0, mad))
         == SignOf(a) * Standardized(value, median, mad)
  {
    AbsPositive(a);
    var scale, k := MAD_TO_STD * mad, Abs(a);
    assert MAD_TO_STD * Affine(k, 0.0, mad) == k * scale;
    assert Affine(a, b, value) - Affine(a, b, median) == a * (value - median);
    ProductSign(k, scale);
    if scale > 0.0 {
      QuotientScaled(value - median, scale, a, k, SignOf(a));
    }
  }

  lemma QuotientScaled(x: real, scale: real, a: real, k: real, g: real)
    requires scale > 0.0 && k > 0.0 && a == g * k
    ensures (a * x) / (k * scale) == g * (x / scale)
  {
    var q := x / scale;
    QuotientTimes(x, scale);
    ProductSign(k, scale);
    Exchange(g, k, q, scale);
    Exchange(g, q, k, scale);
    QuotientOf(a * x, k * scale, g * q);
  }

  function MapRun(run: seq<Observation>, a: real, b: real): (r: seq<Observation>)
    ensures |r| == |run|
    ensures forall i :: 0 <= i < |run| ==> r[i] == Observation(run[i].key, Affine(a, b, run[i].value))
  {
    seq(|run|, i requires 0 <= i < |run| => Observation(run[i].key, Affine(a, b, run[i].value)))
  }

  lemma RecordedMapped(history: seq<real>, window: nat, value: real, a: real, b: real)
    ensures Recorded(Map(history, a, b), window, Affine(a, b, value)) == Map(Recorded(history, window, value), a, b)
  {
    hide Affine;
  }

  /** Window eviction does not look at values, so mapped runs store mapped windows. */
  lemma {:induction false} AfterMapped(window: nat, run: seq<Observation>, a: real, b: real, key: string)
    ensures History(After(map[], window, MapRun(run, a, b)), key) == Map(History(After(map[], window, run), key), a, b)
  {
    hide Recorded, Map, Affine;
    if run == [] {
      assert Map([], a, b) == [];
    } else {
      var front, o := run[..|run| - 1], run[|run| - 1];
      assert MapRun(run, a, b)[..|run| - 1] == MapRun(front, a, b);
      AfterMapped(window, front, a, b, key);
      AfterMapped(window, front, a, b, o.key);
      RecordedMapped(History(After(map[], window, front), o.key), window, o.value, a, b);
    }
  }

  /** Two runs that differ by an affine change of unit return the same None pattern and the same scores,
      negated when the change turns the axis round. */
  lemma RunEquivariant(window: nat, minSamples: int, run: seq<Observation>, a: real, b: real, i: nat)
    requires a != 0.0 && i < |run|
    ensures ScoresMatch(ScoreAt(window, minSamples, run, i), ScoreAt(window, minSamples, MapRun(run, a, b), i), a)
  {
    hide ScoreOf, After, Map, Affine;
    assert MapRun(run, a, b)[..i] == MapRun(run[..i], a, b);
    AfterMapped(window, run[..i], a, b, run[i].key);
    ScoreEquivariant(History(After(map[], window, run[..i]), run[i].key), minSamples, run[i].value, a, b);
  }
}
