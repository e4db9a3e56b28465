/** What the barrier events mean in prices (src/spy_der/evaluation/labels.py, src/spy_der/forecasting/path_model.py). */
module PassageLaws {
  import opened Options
  import opened RealSeqs
  import opened FirstPassage
  import opened PathEvents

  // ----- First passage -----

  /** The price the move aims at is reached: from below by the high, from above by the low. */
  predicate Reaches(up: bool, hi: real, lo: real, target: real) {
    (up && target <= hi) || (!up && lo <= target)
  }

  /** The stop lies on the other side. */
  predicate Stops(up: bool, hi: real, lo: real, stop: real) {
    (up && lo <= stop) || (!up && stop <= hi)
  }

  ghost predicate Decides(up: bool, highs: seq<real>, lows: seq<real>, target: real, stop: real, i: nat)
    requires |highs| == |lows|
  {
    && i < |highs|
    && (Reaches(up, highs[i], lows[i], target) || Stops(up, highs[i], lows[i], stop))
    && forall j :: 0 <= j < i ==> !Reaches(up, highs[j], lows[j], target) && !Stops(up, highs[j], lows[j], stop)
  }

  /** The event is that of the first bar that reaches the target or the stop; with none there is none. */
  lemma EventOfDecidingBar(up: bool, highs: seq<real>, lows: seq<real>, target: real, stop: real, i: nat)
    requires |highs| == |lows| && Decides(up, highs, lows, target, stop, i)
    ensures var e := PassageEvent(up, highs, lows, target, stop);
      var reaches, stops := Reaches(up, highs[i], lows[i], target), Stops(up, highs[i], lows[i], stop);
      && (e == TargetFirst <==> reaches && !stops)
      && (e == StopFirst <==> stops && !reaches)
      && (e == Ambiguous <==> reaches && stops)
  {
    var targets, stopHits := TargetHits(up, highs, lows, target), StopHits(up, highs, lows, stop);
    forall j | 0 <= j <= i
      ensures targets[j] == Reaches(up, highs[j], lows[j], target) && stopHits[j] == Stops(up, highs[j], lows[j], stop)
    {}
    assert FirstHit(targets, stopHits, i);
    EventOfFirstHit(targets, stopHits, i, |highs|);
  }

  lemma NoDecidingBar(up: bool, highs: seq<real>, lows: seq<real>, target: real, stop: real)
    requires |highs| == |lows|
    ensures PassageEvent(up, highs, lows, target, stop) == Neither <==>
      forall i :: 0 <= i < |highs| ==>
        !Reaches(up, highs[i], lows[i], target) && !Stops(up, highs[i], lows[i], stop)
  {
    var targets, stopHits := TargetHits(up, highs, lows, target), StopHits(up, highs, lows, stop);
    forall j | 0 <= j < |highs|
      ensures targets[j] == Reaches(up, highs[j], lows[j], target) && stopHits[j] == Stops(up, highs[j], lows[j], stop)
    {}
    NoHitNoEvent(targets, stopHits, |highs|);
  }

  function Negated(s: seq<real>): (r: seq<real>)
    ensures |r| == |s|
  {
    seq(|s|, i requires 0 <= i < |s| => -s[i])
  }

  /** A downside passage is the upside passage of the bars turned upside down. */
  lemma DownsideMirrorsUpside(highs: seq<real>, lows: seq<real>, target: real, stop: real)
    requires |highs| == |lows|
    ensures PassageEvent(false, highs, lows, target, stop)
         == PassageEvent(true, Negated(lows), Negated(highs), -target, -stop)
  {
    assert TargetHits(false, highs, lows, target) == TargetHits(true, Negated(lows), Negated(highs), -target);
    assert StopHits(false, highs, lows, stop) == StopHits(true, Negated(lows), Negated(highs), -stop);
  }

  /** The scan reads as many bars as the shorter list has. */
  lemma ReadsTheShorter(a: nat, b: nat)
    ensures CommonLength(a, b) <= a && CommonLength(a, b) <= b && CommonLength(a, b) in {a, b}
  {
  }

  /** The conservative event is never ambiguous, and calls an ambiguous bar a stop. */
  lemma ConservativeIsAdverse(e: Event)
    ensures Conservative(e) != Ambiguous
    ensures Conservative(e) == StopFirst <==> e == StopFirst || e == Ambiguous
    ensures e != Ambiguous ==> Conservative(e) == e
  {
  }

  // ----- Simulated paths -----

  /** A step spans exactly its two prices. */
  lemma StepSpansItsPrices(path: seq<real>, t: nat)
    requires t + 1 < |path|
    ensures StepLows(path)[t] <= path[t] <= StepHighs(path)[t]
    ensures StepLows(path)[t] <= path[t + 1] <= StepHighs(path)[t]
    ensures StepHighs(path)[t] in {path[t], path[t + 1]} && StepLows(path)[t] in {path[t], path[t + 1]}
  {
  }

  /** A price has crossed the flip if it is on the other side of it than the spot, or off it if the spot is on it. */
  lemma CrossingIsChangingSides(spot: real, price: real, flip: real)
    ensures CrossesAt(Sign(spot - flip), price, flip) <==>
      (spot < flip < price) || (price < flip < spot) || (spot == flip && price != flip)
  {
  }

  /** A frequency is the share of the paths on which the event holds. */
  lemma FrequencyIsShare(mask: seq<bool>)
    ensures mask == [] <==> Frequency(mask).None?
    ensures mask != [] ==> Frequency(mask).value * |mask| as real == CountTrue(mask) as real
  {
    hide CountTrue;
    if mask != [] { QuotientTimes(CountTrue(mask) as real, |mask| as real); }
  }

  lemma FrequencyAtEnds(mask: seq<bool>)
    requires mask != []
    ensures (forall p :: 0 <= p < |mask| ==> mask[p]) ==> Frequency(mask) == Some(1.0)
    ensures (forall p :: 0 <= p < |mask| ==> !mask[p]) ==> Frequency(mask) == Some(0.0)
  {
    hide CountTrue;
    if forall p :: 0 <= p < |mask| ==> mask[p] {
      CountAll(mask);
      QuotientOf(|mask| as real, |mask| as real, 1.0);
    }
    if forall p :: 0 <= p < |mask| ==> !mask[p] {
      CountNone(mask);
      QuotientOf(0.0, |mask| as real, 0.0);
    }
  }

  lemma {:induction false} CountNone(mask: seq<bool>)
    requires forall p :: 0 <= p < |mask| ==> !mask[p]
    ensures CountTrue(mask) == 0
  {
    if mask != [] { CountNone(mask[..|mask| - 1]); }
  }
}
