/** What the scored frequencies count, path by path and price by price
    (src/spy_der/forecasting/path_model.py, score_path_events). */
module PathLaws {
  import opened Options
  import opened RealSeqs
  import opened FirstPassage
  import opened PathEvents
  import opened PassageLaws

  // ----- One path -----

  /** The steps of a path that touch a level from below or from above: one of their two prices is at or beyond it. */
  function Touches(path: seq<real>, above: bool, level: real): (r: seq<bool>)
    requires |path| >= 1
    ensures |r| == |path| - 1
  {
    seq(|path| - 1, t requires 0 <= t < |path| - 1 =>
      if above then level <= path[t] || level <= path[t + 1] else path[t] <= level || path[t + 1] <= level)
  }

  /** An absent level is never touched. */
  function TouchesIfAny(path: seq<real>, above: bool, level: Option<real>): (r: seq<bool>)
    requires |path| >= 1
    ensures |r| == |path| - 1
  {
    if level.Some? then Touches(path, above, level.value) else seq(|path| - 1, _ => false)
  }

  /** a happens at some step, and b not up to that step. */
  ghost predicate Before(a: seq<bool>, b: seq<bool>)
    requires |a| == |b|
  {
    exists i :: 0 <= i < |a| && a[i] && forall j :: 0 <= j <= i ==> !b[j]
  }

  /** b happens at some step, and a not before that step: a tie goes to b. */
  ghost predicate NotAfter(b: seq<bool>, a: seq<bool>)
    requires |a| == |b|
  {
    exists i :: 0 <= i < |a| && b[i] && forall j :: 0 <= j < i ==> !a[j]
  }

  ghost predicate Tied(a: seq<bool>, b: seq<bool>)
    requires |a| == |b|
  {
    exists i :: 0 <= i < |a| && a[i] && b[i] && forall j :: 0 <= j < i ==> !a[j] && !b[j]
  }

  ghost predicate Never(a: seq<bool>, b: seq<bool>)
    requires |a| == |b|
  {
    forall i :: 0 <= i < |a| ==> !a[i] && !b[i]
  }

  /** Which event comes first, said without scanning. */
  lemma WhichComesFirst(a: seq<bool>, b: seq<bool>)
    requires |a| == |b|
    ensures var e := EventUpTo(a, b, |a|);
      && (Conservative(e) == TargetFirst <==> Before(a, b))
      && (Conservative(e) == StopFirst <==> NotAfter(b, a))
      && (Conservative(e) == Neither <==> Never(a, b))
      && (e == Ambiguous <==> Tied(a, b))
  {
    NoHitNoEvent(a, b, |a|);
    if !Never(a, b) {
      var i := FirstOf(a, b);
      EventOfFirstHit(a, b, i, |a|);
      FirstDecides(a, b, i);
    }
  }

  lemma FirstOf(a: seq<bool>, b: seq<bool>) returns (i: nat)
    requires |a| == |b| && !Never(a, b)
    ensures FirstHit(a, b, i)
  {
    i := 0;
    while !a[i] && !b[i]
      invariant i < |a| && forall j :: 0 <= j < i ==> !a[j] && !b[j]
      invariant exists k :: i <= k < |a| && (a[k] || b[k])
      decreases |a| - i
    {
      i := i + 1;
    }
  }

  lemma FirstDecides(a: seq<bool>, b: seq<bool>, i: nat)
    requires |a| == |b| && FirstHit(a, b, i)
    ensures Before(a, b) <==> a[i] && !b[i]
    ensures NotAfter(b, a) <==> b[i]
    ensures Tied(a, b) <==> a[i] && b[i]
  {
    if Before(a, b) {
      var k :| 0 <= k < |a| && a[k] && forall j :: 0 <= j <= k ==> !b[j];
      assert i <= k;
    }
    if NotAfter(b, a) {
      var k :| 0 <= k < |a| && b[k] && forall j :: 0 <= j < k ==> !a[j];
      assert i <= k;
    }
  }

  lemma HitsAreTouches(path: seq<real>, up: bool, target: real, stop: real)
    requires |path| >= 1
    ensures TargetHits(up, StepHighs(path), StepLows(path), target) == Touches(path, up, target)
    ensures StopHits(up, StepHighs(path), StepLows(path), stop) == Touches(path, !up, stop)
  {
  }

  // ----- Shares of paths -----

  /** The share of the paths with some property; undefined without paths. */
  ghost function ShareOfPaths(paths: seq<seq<real>>, holds: seq<real> -> bool): Option<real> {
    if paths == [] then None else Some(|PathsWith(paths, holds)| as real / |paths| as real)
  }

  ghost function PathsWith(paths: seq<seq<real>>, holds: seq<real> -> bool): set<int> {
    set p | 0 <= p < |paths| && holds(paths[p])
  }

  lemma {:induction false} CountIsSize(mask: seq<bool>, paths: seq<seq<real>>, holds: seq<real> -> bool)
    requires |mask| == |paths| && forall p :: 0 <= p < |paths| ==> (mask[p] <==> holds(paths[p]))
    ensures CountTrue(mask) == |PathsWith(paths, holds)|
  {
    if mask == [] {
      NoInt(PathsWith(paths, holds));
    } else {
      var n := |mask| - 1;
      CountIsSize(mask[..n], paths[..n], holds);
      var front := PathsWith(paths[..n], holds);
      assert n !in front;
      if mask[n] {
        assert PathsWith(paths, holds) == front + {n};
      } else {
        assert PathsWith(paths, holds) == front;
      }
    }
  }

  lemma FrequencyIsShareOfPaths(mask: seq<bool>, paths: seq<seq<real>>, holds: seq<real> -> bool)
    requires |mask| == |paths| && forall p :: 0 <= p < |paths| ==> (mask[p] <==> holds(paths[p]))
    ensures Frequency(mask) == ShareOfPaths(paths, holds)
  {
    CountIsSize(mask, paths, holds);
  }

  // ----- Every frequency -----

  ghost predicate TouchesAt(path: seq<real>, above: bool, level: real) {
    exists t :: 0 <= t < |path| && if above then level <= path[t] else path[t] <= level
  }

  ghost predicate ChangesSides(path: seq<real>, spot: real, flip: real) {
    exists t :: 1 <= t < |path| && OffSide(path[t], spot, flip)
  }

  ghost predicate OffSide(price: real, spot: real, flip: real) {
    (spot < flip < price) || (price < flip < spot) || (spot == flip && price != flip)
  }

  ghost predicate StaysWithin(path: seq<real>, lower: real, upper: real) {
    forall t :: 0 <= t < |path| ==> lower < path[t] < upper
  }

  /** Touching a wall is having a price at or beyond it, the first price included. */
  lemma TouchIsPrice(path: seq<real>, above: bool, level: real)
    requires |path| >= 2
    ensures AnyTrue(Touches(path, above, level)) <==> TouchesAt(path, above, level)
  {
    var touches := Touches(path, above, level);
    if TouchesAt(path, above, level) {
      var t :| 0 <= t < |path| && if above then level <= path[t] else path[t] <= level;
      assert touches[if t == 0 then 0 else t - 1];
    }
  }

  lemma WallTouches(paths: seq<seq<real>>, cols: nat, wall: real)
    requires cols >= 2 && IsGrid(paths, cols)
    ensures Frequency(TouchMask(AllCallHits(paths, Some(wall))))
         == ShareOfPaths(paths, path => TouchesAt(path, true, wall))
    ensures Frequency(TouchMask(AllPutHits(paths, Some(wall))))
         == ShareOfPaths(paths, path => TouchesAt(path, false, wall))
  {
    hide Frequency, ShareOfPaths, TouchesAt, AnyTrue, Touches;
    var calls, puts := TouchMask(AllCallHits(paths, Some(wall))), TouchMask(AllPutHits(paths, Some(wall)));
    forall p | 0 <= p < |paths|
      ensures calls[p] <==> TouchesAt(paths[p], true, wall)
      ensures puts[p] <==> TouchesAt(paths[p], false, wall)
    {
      HitsAreTouches(paths[p], true, wall, wall);
      TouchIsPrice(paths[p], true, wall);
      TouchIsPrice(paths[p], false, wall);
    }
    FrequencyIsShareOfPaths(calls, paths, path => TouchesAt(path, true, wall));
    FrequencyIsShareOfPaths(puts, paths, path => TouchesAt(path, false, wall));
  }

  lemma FlipShare(paths: seq<seq<real>>, cols: nat, spot: real, flip: real)
    requires cols >= 2 && IsGrid(paths, cols)
    ensures Frequency(FlipMask(paths, cols, spot, flip)) == ShareOfPaths(paths, path => ChangesSides(path, spot, flip))
  {
    hide Frequency, ShareOfPaths, CrossesAt, Sign;
    var mask := FlipMask(paths, cols, spot, flip);
    forall p | 0 <= p < |paths| ensures mask[p] <==> ChangesSides(paths[p], spot, flip) {
      forall t | 1 <= t < cols ensures CrossesAt(Sign(spot - flip), paths[p][t], flip) <==>
          OffSide(paths[p][t], spot, flip) {
        CrossingIsChangingSides(spot, paths[p][t], flip);
      }
    }
    FrequencyIsShareOfPaths(mask, paths, path => ChangesSides(path, spot, flip));
  }

  lemma RangeSurvivals(paths: seq<seq<real>>, cols: nat, lower: real, upper: real)
    requires cols >= 2 && IsGrid(paths, cols)
    ensures Frequency(RangeMask(paths, lower, upper)) == ShareOfPaths(paths, path => StaysWithin(path, lower, upper))
  {
    hide Frequency, ShareOfPaths;
    var mask := RangeMask(paths, lower, upper);
    forall p | 0 <= p < |paths| ensures mask[p] <==> StaysWithin(paths[p], lower, upper) {
      SurvivalIsStaying(paths[p], lower, upper);
    }
    FrequencyIsShareOfPaths(mask, paths, path => StaysWithin(path, lower, upper));
  }

  lemma SurvivalIsStaying(path: seq<real>, lower: real, upper: real)
    requires |path| >= 2
    ensures Survives(StepHighs(path), StepLows(path), lower, upper) <==> StaysWithin(path, lower, upper)
  {
    var highs, lows := StepHighs(path), StepLows(path);
    if Survives(highs, lows, lower, upper) {
      forall t | 0 <= t < |path| ensures lower < path[t] < upper {
        StepSpansItsPrices(path, if t == 0 then 0 else t - 1);
        var step := if t == 0 then 0 else t - 1;
        assert lower < lows[step] && highs[step] < upper;
      }
    }
    if StaysWithin(path, lower, upper) {
      forall t | 0 <= t < |path| - 1 ensures lower < lows[t] && highs[t] < upper {
        StepSpansItsPrices(path, t);
        assert lower < path[t] < upper && lower < path[t + 1] < upper;
      }
    }
  }

  ghost function Steps(path: seq<real>, above: bool, level: Option<real>): (r: seq<bool>)
    ensures |r| == if path == [] then 0 else |path| - 1
  {
    if path == [] then [] else TouchesIfAny(path, above, level)
  }

  /** The share of the paths on which the first level comes before, not after, or never with the second. */
  ghost function OrderOnPath(path: seq<real>, above: bool, first: Option<real>, second: Option<real>,
                             event: Event): bool
  {
    var a, b := Steps(path, above, first), Steps(path, !above, second);
    match event
    case TargetFirst => Before(a, b)
    case StopFirst => NotAfter(b, a)
    case Neither => Never(a, b)
    case Ambiguous => Tied(a, b)
  }

  lemma EventsOfMask(paths: seq<seq<real>>, cols: nat, above: bool, first: Option<real>, second: Option<real>,
                     a: seq<seq<bool>>, b: seq<seq<bool>>, event: Event)
    requires cols >= 2 && IsGrid(paths, cols) && |a| == |b| == |paths| && event != Ambiguous
    requires forall p :: 0 <= p < |paths| ==> |a[p]| == |b[p]| == cols - 1
    requires forall p :: 0 <= p < |paths| ==>
      a[p] == Steps(paths[p], above, first) && b[p] == Steps(paths[p], !above, second)
    ensures Frequency(EventMask(a, b, cols - 1, event))
         == ShareOfPaths(paths, path => OrderOnPath(path, above, first, second, event))
    ensures CountTrue(AmbiguousAt(a, b, cols - 1))
         == |PathsWith(paths, path => OrderOnPath(path, above, first, second, Ambiguous))|
  {
    hide Frequency, ShareOfPaths, Steps, EventUpTo, Conservative, Before, NotAfter, Never, Tied, PathsWith, CountTrue;
    var mask, ties := EventMask(a, b, cols - 1, event), AmbiguousAt(a, b, cols - 1);
    forall p | 0 <= p < |paths|
      ensures mask[p] <==> OrderOnPath(paths[p], above, first, second, event)
      ensures ties[p] <==> OrderOnPath(paths[p], above, first, second, Ambiguous)
    {
      WhichComesFirst(a[p], b[p]);
    }
    FrequencyIsShareOfPaths(mask, paths, path => OrderOnPath(path, above, first, second, event));
    CountIsSize(ties, paths, path => OrderOnPath(path, above, first, second, Ambiguous));
  }

  /** With a target and a stop given, the barrier frequencies are the shares of the paths whose steps touch the target
      before the stop, the stop not after the target, or neither: the target on the side of the spot it lies on. */
  lemma BarrierShares(paths: seq<seq<real>>, cols: nat, l: Levels, event: Event)
    requires cols >= 2 && IsGrid(paths, cols) && l.target.Some? && l.stop.Some? && event != Ambiguous
    ensures var up := l.spot <= l.target.value;
      && BarrierFrequency(paths, cols, l, event)
         == ShareOfPaths(paths, path => OrderOnPath(path, up, l.target, l.stop, event))
      && AmbiguousRate(paths, cols, l)
         == |PathsWith(paths, path => OrderOnPath(path, up, l.target, l.stop, Ambiguous))| as real
            / (if paths == [] then 1.0 else |paths| as real)
  {
    hide Frequency, ShareOfPaths, OrderOnPath, EventMask, AmbiguousAt, Touches, TargetHits, StopHits;
    var up := l.spot <= l.target.value;
    forall p | 0 <= p < |paths| { HitsAreTouches(paths[p], up, l.target.value, l.stop.value); }
    EventsOfMask(paths, cols, up, l.target, l.stop, AllTargetHits(paths, up, l.target.value),
                 AllStopHits(paths, up, l.stop.value), event);
  }

  /** And the wall frequencies those of the call wall above and the put wall below. */
  lemma WallShares(paths: seq<seq<real>>, cols: nat, l: Levels, event: Event)
    requires cols >= 2 && IsGrid(paths, cols) && event != Ambiguous
    ensures WallFrequency(paths, cols, l, event)
         == ShareOfPaths(paths, path => OrderOnPath(path, true, l.callWall, l.putWall, event))
  {
    hide Frequency, ShareOfPaths, OrderOnPath, EventMask, AmbiguousAt, Touches, TargetHits, StopHits;
    forall p | 0 <= p < |paths|
      ensures AllCallHits(paths, l.callWall)[p] == Steps(paths[p], true, l.callWall)
      ensures AllPutHits(paths, l.putWall)[p] == Steps(paths[p], false, l.putWall)
    {
      if l.callWall.Some? { HitsAreTouches(paths[p], true, l.callWall.value, 0.0); }
      if l.putWall.Some? { HitsAreTouches(paths[p], true, 0.0, l.putWall.value); }
    }
    EventsOfMask(paths, cols, true, l.callWall, l.putWall, AllCallHits(paths, l.callWall),
                 AllPutHits(paths, l.putWall), event);
  }

  ghost function WhenGiven(given: bool, share: Option<real>): Option<real> { if given then share else None }

  /** Every reported frequency is the share of the paths on which the event happens in prices: the first of two levels,
      a tie going to the stop or the put wall; a wall touched by any price; the flip crossed after the start; the
      range never left. Without both target and stop nothing ever comes first. */
  lemma ScoreCountsPaths(paths: seq<seq<real>>, cols: nat, l: Levels)
    requires cols >= 2 && IsGrid(paths, cols)
    ensures var r := Score(paths, cols, l);
      && (l.target.Some? && l.stop.Some? ==>
            var up := l.spot <= l.target.value;
            && r.targetFirst == ShareOfPaths(paths, path => OrderOnPath(path, up, l.target, l.stop, TargetFirst))
            && r.stopFirst == ShareOfPaths(paths, path => OrderOnPath(path, up, l.target, l.stop, StopFirst))
            && r.neither == ShareOfPaths(paths, path => OrderOnPath(path, up, l.target, l.stop, Neither)))
      && (l.target.None? || l.stop.None? ==>
            && r.targetFirst == WhenGiven(l.target.Some?, ShareOfPaths(paths, path => false))
            && r.stopFirst == WhenGiven(l.stop.Some?, ShareOfPaths(paths, path => false))
            && r.neither == WhenGiven(l.target.Some?, ShareOfPaths(paths, path => true))
            && r.ambiguousRate == 0.0)
      && r.callWallFirst
         == WhenGiven(l.callWall.Some?,
               ShareOfPaths(paths, path => OrderOnPath(path, true, l.callWall, l.putWall, TargetFirst)))
      && r.putWallFirst
         == WhenGiven(l.putWall.Some?,
                      ShareOfPaths(paths, path => OrderOnPath(path, true, l.callWall, l.putWall, StopFirst)))
      && r.neitherWall
         == WhenGiven(l.callWall.Some? || l.putWall.Some?,
               ShareOfPaths(paths, path => OrderOnPath(path, true, l.callWall, l.putWall, Neither)))
    ensures var r := Score(paths, cols, l);
      && (if l.callWall.None? then r.touchCallWall.None?
          else r.touchCallWall == ShareOfPaths(paths, path => TouchesAt(path, true, l.callWall.value)))
      && (if l.putWall.None? then r.touchPutWall.None?
          else r.touchPutWall == ShareOfPaths(paths, path => TouchesAt(path, false, l.putWall.value)))
      && (if l.gammaFlip.None? then r.crossGammaFlip.None?
          else r.crossGammaFlip == ShareOfPaths(paths, path => ChangesSides(path, l.spot, l.gammaFlip.value)))
      && (if l.lower.None? || l.upper.None? then r.rangeSurvive.None?
          else r.rangeSurvive == ShareOfPaths(paths, path => StaysWithin(path, l.lower.value, l.upper.value)))
  {
    hide Frequency, ShareOfPaths, OrderOnPath, WallFrequency, TouchMask, FlipMask, RangeMask,
        TouchesAt, ChangesSides, StaysWithin, CrossesAt;
    if l.target.Some? && l.stop.Some? {
      BarrierShares(paths, cols, l, TargetFirst);
      BarrierShares(paths, cols, l, StopFirst);
      BarrierShares(paths, cols, l, Neither);
    } else {
      FrequencyIsShareOfPaths(seq(|paths|, _ => false), paths, path => false);
      FrequencyIsShareOfPaths(seq(|paths|, _ => true), paths, path => true);
      assert seq(|paths|, _ => TargetFirst == Neither) == seq(|paths|, _ => false);
      assert seq(|paths|, _ => StopFirst == Neither) == seq(|paths|, _ => false);
      assert seq(|paths|, _ => Neither == Neither) == seq(|paths|, _ => true);
    }
    WallShares(paths, cols, l, TargetFirst);
    WallShares(paths, cols, l, StopFirst);
    WallShares(paths, cols, l, Neither);
    if l.callWall.Some? { WallTouches(paths, cols, l.callWall.value); }
    if l.putWall.Some? { WallTouches(paths, cols, l.putWall.value); }
    if l.gammaFlip.Some? { FlipShare(paths, cols, l.spot, l.gammaFlip.value); }
    if l.lower.Some? && l.upper.Some? { RangeSurvivals(paths, cols, l.lower.value, l.upper.value); }
  }
}
