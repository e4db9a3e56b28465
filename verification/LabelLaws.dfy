/** What the session labels mean in bars and times (src/spy_der/evaluation/labels.py). */
module LabelLaws {
  import opened Options
  import opened RealSeqs
  import opened FirstPassage
  import PathEvents
  import opened SessionLabels
  import opened PassageLaws
  import opened PathLaws

  // ----- Horizons -----

  /** The whole minutes of a horizon that is not the close. */
  function LengthOf(h: Horizon): int {
    match h case M5 => 5 case M15 => 15 case M30 => 30 case M60 => 60 case Close => 0
  }

  /** The end of a timed horizon is the first bar not before the observation plus its minutes, if the session
      lasts that long and that bar is late by at most one base bar. */
  lemma HorizonEndExactly(s: LabelerData, obs: int, h: Horizon, i: nat)
    requires Valid(s) && h != Close
    ensures var due := obs + LengthOf(h) * 60_000_000_000;
      HorizonEnd(s, obs, h) == Some(i) <==>
        && i < |s.ts| && due <= s.ts[i] && (i > 0 ==> s.ts[i - 1] < due)
        && s.ts[i] <= due + s.baseBarMinutes * 60_000_000_000
  {
    var due := obs + LengthOf(h) * 60_000_000_000;
    var k := SearchLeft(s.ts, due);
    assert due == obs + Minutes(h) * NANOS_PER_MINUTE;
    if i < |s.ts| && due <= s.ts[i] && (i > 0 ==> s.ts[i - 1] < due) {
      assert k <= i;
      assert i > 0 ==> i - 1 < k;
      assert s.ts[i] <= s.ts[|s.ts| - 1];
    }
  }

  /** The close is the last bar, if it lies after the observation. */
  lemma CloseIsLastBar(s: LabelerData, obs: int)
    requires Valid(s)
    ensures HorizonEnd(s, obs, Close) == if obs < s.ts[|s.ts| - 1] then Some(|s.ts| - 1) else None
  {
  }

  /** There is a window whenever the horizon has an end: that bar is always after the observation. */
  lemma WindowWhenHorizonEnds(s: LabelerData, obs: int, h: Horizon)
    requires Valid(s)
    ensures Window(s, obs, h).Some? <==> HorizonEnd(s, obs, h).Some?
  {
    if HorizonEnd(s, obs, h).Some? {
      var end := HorizonEnd(s, obs, h).value;
      if h == Close { CloseIsLastBar(s, obs); } else { HorizonEndExactly(s, obs, h, end); }
      assert obs < s.ts[end];
    }
  }

  /** The window holds exactly the bars after the observation up to the end of the horizon. */
  lemma WindowHolds(s: LabelerData, obs: int, h: Horizon, j: nat)
    requires Valid(s) && Window(s, obs, h).Some? && j < |s.ts|
    ensures var (start, end) := Window(s, obs, h).value;
      && HorizonEnd(s, obs, h) == Some(end - 1)
      && (start <= j < end <==> obs < s.ts[j] && s.ts[j] <= s.ts[end - 1])
  {
    var (start, end) := Window(s, obs, h).value;
    assert start <= j <==> obs < s.ts[j];
    if j < end - 1 { assert s.ts[j] < s.ts[end - 1]; }
    if end - 1 < j { assert s.ts[end - 1] < s.ts[j]; }
  }

  /** A bar k minutes after the observation is k minutes away. */
  lemma TimesAreMinutes(s: LabelerData, obs: int, i: nat, k: int)
    requires i < |s.ts| && s.ts[i] == obs + k * 60_000_000_000
    ensures MinutesFrom(s, obs, i) == k as real
  {
    assert (s.ts[i] - obs) as real == k as real * 60_000_000_000.0;
    QuotientOf((s.ts[i] - obs) as real, 60_000_000_000.0, k as real);
  }

  // ----- Levels -----

  /** The bars of a horizon: after the observation and not after the bar that ends it. */
  ghost predicate InHorizon(s: LabelerData, obs: int, h: Horizon, j: nat)
    requires Valid(s)
  {
    && j < |s.ts| && obs < s.ts[j]
    && HorizonEnd(s, obs, h).Some? && s.ts[j] <= s.ts[HorizonEnd(s, obs, h).value]
  }

  /** A level label is missing exactly when its level or the horizon is, and else tells whether it happened. */
  ghost predicate Tells(told: Option<int>, given: bool, happened: bool) {
    if given then told == Some(if happened then 1 else 0) else told == None
  }

  ghost predicate CallReached(s: LabelerData, obs: int, h: Horizon, wall: real)
    requires Valid(s)
  {
    exists j: nat :: InHorizon(s, obs, h, j) && wall <= s.high[j]
  }

  ghost predicate PutReached(s: LabelerData, obs: int, h: Horizon, wall: real)
    requires Valid(s)
  {
    exists j: nat :: InHorizon(s, obs, h, j) && s.low[j] <= wall
  }

  ghost predicate FlipReached(s: LabelerData, obs: int, h: Horizon, flip: real)
    requires Valid(s)
  {
    exists j: nat :: InHorizon(s, obs, h, j) && s.low[j] <= flip <= s.high[j]
  }

  ghost predicate FlipCrossed(s: LabelerData, obs: int, h: Horizon, spot: real, flip: real)
    requires Valid(s)
  {
    exists j: nat :: InHorizon(s, obs, h, j) && OffSide(s.close[j], spot, flip)
  }

  ghost predicate RangeHeld(s: LabelerData, obs: int, h: Horizon, lower: real, upper: real)
    requires Valid(s)
  {
    forall j: nat :: InHorizon(s, obs, h, j) ==> lower < s.low[j] && s.high[j] < upper
  }

  /** The level labels of a horizon in prices: the call wall reached by a high, the put wall by a low, the flip within
      a bar, a close on the other side of it than the spot, and no bar at or beyond either wall. */
  lemma LevelLabelsExactly(ln: real -> real, s: LabelerData, obs: int, h: Horizon, spot: real, walls: Walls,
                           t: Thresholds)
    requires Valid(s) && spot != 0.0
    ensures var l, defined := LabelsAt(ln, s, obs, h, spot, walls, t), Window(s, obs, h).Some?;
      var call, put, flip := walls.callWall, walls.putWall, walls.gammaFlip;
      && Tells(l.touchCallWall, defined && call.Some?, call.Some? && CallReached(s, obs, h, call.value))
      && Tells(l.touchPutWall, defined && put.Some?, put.Some? && PutReached(s, obs, h, put.value))
      && Tells(l.touchGammaFlip, defined && flip.Some?, flip.Some? && FlipReached(s, obs, h, flip.value))
      && Tells(l.crossGammaFlip, defined && flip.Some?, flip.Some? && FlipCrossed(s, obs, h, spot, flip.value))
      && Tells(l.rangeSurvive, defined && call.Some? && put.Some?,
               call.Some? && put.Some? && RangeHeld(s, obs, h, put.value, call.value))
  {
    hide MaxOf, MinOf, RealizedVariance, DirectionLabel, Window, AnyTrue, CallTouches, PutTouches, FlipTouches,
        FlipCrossings, Survives, CallReached, PutReached, FlipReached, FlipCrossed, RangeHeld;
    if Window(s, obs, h).Some? {
      WindowInRange(s, obs, h);
      if walls.callWall.Some? { CallTouched(s, obs, h, walls.callWall.value); }
      if walls.putWall.Some? { PutTouched(s, obs, h, walls.putWall.value); }
      if walls.gammaFlip.Some? {
        FlipTouched(s, obs, h, walls.gammaFlip.value);
        FlipLeft(s, obs, h, spot, walls.gammaFlip.value);
      }
      if walls.callWall.Some? && walls.putWall.Some? {
        RangeKept(s, obs, h, walls.putWall.value, walls.callWall.value);
      }
    }
  }

  lemma BarOfWindow(s: LabelerData, obs: int, h: Horizon, j: nat)
    requires Valid(s) && Window(s, obs, h).Some?
    ensures var (start, end) := Window(s, obs, h).value;
      start < end <= |s.ts| && (InHorizon(s, obs, h, j) <==> start <= j < end)
  {
    WindowInRange(s, obs, h);
    if j < |s.ts| { WindowHolds(s, obs, h, j); } else { WindowHolds(s, obs, h, 0); }
  }

  lemma BarsOfWindow(s: LabelerData, obs: int, h: Horizon)
    requires Valid(s) && Window(s, obs, h).Some?
    ensures var (start, end) := Window(s, obs, h).value;
      start < end <= |s.ts| && forall j: nat :: InHorizon(s, obs, h, j) <==> start <= j < end
  {
    hide InHorizon, Window;
    BarOfWindow(s, obs, h, 0);
    var (start, end) := Window(s, obs, h).value;
    forall j: nat ensures InHorizon(s, obs, h, j) <==> start <= j < end { BarOfWindow(s, obs, h, j); }
  }

  lemma CallTouched(s: LabelerData, obs: int, h: Horizon, wall: real)
    requires Valid(s) && Window(s, obs, h).Some?
    ensures var (start, end) := Window(s, obs, h).value;
      start < end <= |s.ts|
      && (AnyTrue(CallTouches(s.high[start..end], wall)) <==> CallReached(s, obs, h, wall))
  {
    hide InHorizon, Window;
    BarsOfWindow(s, obs, h);
    var (start, end) := Window(s, obs, h).value;
    var touches := CallTouches(s.high[start..end], wall);
    if i :| 0 <= i < |touches| && touches[i] { assert InHorizon(s, obs, h, start + i); }
    if j: nat :| InHorizon(s, obs, h, j) && wall <= s.high[j] {
      assert touches[j - start];
    }
  }

  lemma PutTouched(s: LabelerData, obs: int, h: Horizon, wall: real)
    requires Valid(s) && Window(s, obs, h).Some?
    ensures var (start, end) := Window(s, obs, h).value;
      start < end <= |s.ts|
      && (AnyTrue(PutTouches(s.low[start..end], wall)) <==> PutReached(s, obs, h, wall))
  {
    hide InHorizon, Window;
    BarsOfWindow(s, obs, h);
    var (start, end) := Window(s, obs, h).value;
    var touches := PutTouches(s.low[start..end], wall);
    if i :| 0 <= i < |touches| && touches[i] { assert InHorizon(s, obs, h, start + i); }
    if j: nat :| InHorizon(s, obs, h, j) && s.low[j] <= wall {
      assert touches[j - start];
    }
  }

  lemma FlipTouched(s: LabelerData, obs: int, h: Horizon, flip: real)
    requires Valid(s) && Window(s, obs, h).Some?
    ensures var (start, end) := Window(s, obs, h).value;
      start < end <= |s.ts|
      && (AnyTrue(FlipTouches(s.high[start..end], s.low[start..end], flip)) <==> FlipReached(s, obs, h, flip))
  {
    hide InHorizon, Window;
    BarsOfWindow(s, obs, h);
    var (start, end) := Window(s, obs, h).value;
    var touches := FlipTouches(s.high[start..end], s.low[start..end], flip);
    if i :| 0 <= i < |touches| && touches[i] { assert InHorizon(s, obs, h, start + i); }
    if j: nat :| InHorizon(s, obs, h, j) && s.low[j] <= flip <= s.high[j] {
      assert touches[j - start];
    }
  }

  lemma FlipLeft(s: LabelerData, obs: int, h: Horizon, spot: real, flip: real)
    requires Valid(s) && Window(s, obs, h).Some?
    ensures var (start, end) := Window(s, obs, h).value;
      start < end <= |s.ts|
      && (AnyTrue(FlipCrossings(s.close[start..end], spot, flip)) <==> FlipCrossed(s, obs, h, spot, flip))
  {
    hide InHorizon, Window, OffSide, PathEvents.CrossesAt;
    BarsOfWindow(s, obs, h);
    var (start, end) := Window(s, obs, h).value;
    var crossings := FlipCrossings(s.close[start..end], spot, flip);
    forall j: nat | start <= j < end ensures crossings[j - start] <==> OffSide(s.close[j], spot, flip) {
      OffSideIsCrossing(spot, s.close[j], flip);
    }
    if i :| 0 <= i < |crossings| && crossings[i] { assert InHorizon(s, obs, h, start + i); }
    if j: nat :| InHorizon(s, obs, h, j) && OffSide(s.close[j], spot, flip) {
      assert crossings[j - start];
    }
  }

  lemma OffSideIsCrossing(spot: real, price: real, flip: real)
    ensures PathEvents.CrossesAt(PathEvents.Sign(spot - flip), price, flip) <==> OffSide(price, spot, flip)
  {
    CrossingIsChangingSides(spot, price, flip);
  }

  lemma RangeKept(s: LabelerData, obs: int, h: Horizon, lower: real, upper: real)
    requires Valid(s) && Window(s, obs, h).Some?
    ensures var (start, end) := Window(s, obs, h).value;
      start < end <= |s.ts|
      && (Survives(s.high[start..end], s.low[start..end], lower, upper) <==> RangeHeld(s, obs, h, lower, upper))
  {
    hide InHorizon, Window;
    BarsOfWindow(s, obs, h);
    var (start, end) := Window(s, obs, h).value;
    var hi, lo := s.high[start..end], s.low[start..end];
    forall j: nat | start <= j < end ensures hi[j - start] == s.high[j] && lo[j - start] == s.low[j] {}
  }

  // ----- Which wall comes first -----

  /** The bars after the observation that reach a wall. */
  ghost function CallsAfter(s: LabelerData, obs: int, wall: real): (r: seq<bool>)
    requires Valid(s)
    ensures |r| == |s.ts| - FutureStart(s, obs)
  {
    CallTouches(s.high[FutureStart(s, obs)..], wall)
  }

  ghost function PutsAfter(s: LabelerData, obs: int, wall: real): (r: seq<bool>)
    requires Valid(s)
    ensures |r| == |s.ts| - FutureStart(s, obs)
  {
    PutTouches(s.low[FutureStart(s, obs)..], wall)
  }

  /** With both walls given, the flags tell which is reached first by a bar after the observation; if one bar reaches
      both, first, it is ambiguous which, and the two flags are missing. Without both walls all are. */
  lemma WallFlagsExactly(s: LabelerData, obs: int, walls: Walls)
    requires Valid(s)
    ensures var l, both := WallLabelsOf(s, obs, walls), walls.callWall.Some? && walls.putWall.Some?;
      if !both then l.callWallFirst == l.putWallFirst == l.neitherWall == l.ambiguous == None
      else
        var calls, puts := CallsAfter(s, obs, walls.callWall.value), PutsAfter(s, obs, walls.putWall.value);
        && Tells(l.ambiguous, true, Tied(calls, puts)) && Tells(l.neitherWall, true, Never(calls, puts))
        && Tells(l.callWallFirst, !Tied(calls, puts), Before(calls, puts))
        && Tells(l.putWallFirst, !Tied(calls, puts), Before(puts, calls))
  {
    hide EventUpTo, Before, NotAfter, Tied, Never, TimeOf;
    if walls.callWall.Some? && walls.putWall.Some? {
      var calls, puts := CallsAfter(s, obs, walls.callWall.value), PutsAfter(s, obs, walls.putWall.value);
      WallHits(s, obs, walls.callWall.value, walls.putWall.value);
      WhichComesFirst(calls, puts);
      NotAfterIsBeforeOrTied(calls, puts);
    }
  }

  /** The bars after the observation that hold the flip. */
  ghost function FlipsAfter(s: LabelerData, obs: int, flip: real): (r: seq<bool>)
    requires Valid(s)
    ensures |r| == |s.ts| - FutureStart(s, obs)
  {
    FlipTouches(s.high[FutureStart(s, obs)..], s.low[FutureStart(s, obs)..], flip)
  }

  ghost predicate IsFirst(hits: seq<bool>, i: int) { 0 <= i < |hits| && hits[i] && forall k :: 0 <= k < i ==> !hits[k] }

  ghost predicate Times(time: Option<real>, s: LabelerData, obs: int, hits: seq<bool>, j: nat)
    requires j < |s.ts| && Valid(s)
  {
    && (time == None <==> forall k :: 0 <= k < |hits| ==> !hits[k])
    && (IsFirst(hits, j - FutureStart(s, obs)) ==> time == Some(MinutesFrom(s, obs, j)))
  }

  /** The time to a level is that of the first bar after the observation that reaches it, missing without one. */
  lemma LevelTimesExactly(s: LabelerData, obs: int, walls: Walls, j: nat)
    requires Valid(s) && j < |s.ts|
    ensures var l, call, put, flip := WallLabelsOf(s, obs, walls), walls.callWall, walls.putWall, walls.gammaFlip;
      && (if call.Some? then Times(l.timeToCallWall, s, obs, CallsAfter(s, obs, call.value), j)
          else l.timeToCallWall == None)
      && (if put.Some? then Times(l.timeToPutWall, s, obs, PutsAfter(s, obs, put.value), j)
          else l.timeToPutWall == None)
      && (if flip.Some? then Times(l.timeToFlip, s, obs, FlipsAfter(s, obs, flip.value), j) else l.timeToFlip == None)
  {
    hide WallEvent, MinutesFrom, Times, TimeOf, CallTouches, PutTouches, FlipTouches;
    if walls.callWall.Some? { TimeOfFirst(s, obs, CallsAfter(s, obs, walls.callWall.value), j); }
    if walls.putWall.Some? { TimeOfFirst(s, obs, PutsAfter(s, obs, walls.putWall.value), j); }
    if walls.gammaFlip.Some? { TimeOfFirst(s, obs, FlipsAfter(s, obs, walls.gammaFlip.value), j); }
  }

  lemma TimeOfFirst(s: LabelerData, obs: int, hits: seq<bool>, j: nat)
    requires Valid(s) && j < |s.ts| && |hits| == |s.ts| - FutureStart(s, obs)
    ensures Times(TimeOf(s, obs, FutureStart(s, obs), hits), s, obs, hits, j)
  {
    hide MinutesFrom;
  }

  lemma WallHits(s: LabelerData, obs: int, callWall: real, putWall: real)
    requires Valid(s)
    ensures WallEvent(s, FutureStart(s, obs), callWall, putWall)
         == EventUpTo(CallsAfter(s, obs, callWall), PutsAfter(s, obs, putWall), |s.ts| - FutureStart(s, obs))
  {
    hide EventUpTo;
    var start := FutureStart(s, obs);
    var hi, lo := s.high[start..], s.low[start..];
    assert TargetHits(true, hi, lo, callWall) == CallsAfter(s, obs, callWall);
    assert StopHits(true, hi, lo, putWall) == PutsAfter(s, obs, putWall);
  }

  lemma NotAfterIsBeforeOrTied(a: seq<bool>, b: seq<bool>)
    requires |a| == |b|
    ensures NotAfter(b, a) && !Tied(a, b) <==> Before(b, a)
  {
    if !Never(a, b) {
      var i := FirstOf(a, b);
      FirstDecides(a, b, i);
      FirstDecides(b, a, i);
    }
  }

  // ----- Returns and direction -----

  /** The forward return is that of the bar that ends the horizon, and its sign decides the up label. */
  lemma ForwardReturnIsTheEndBars(ln: real -> real, s: LabelerData, obs: int, h: Horizon, spot: real, walls: Walls,
                                  t: Thresholds)
    requires Valid(s) && spot != 0.0 && Window(s, obs, h).Some?
    ensures var l := LabelsAt(ln, s, obs, h, spot, walls, t);
      && HorizonEnd(s, obs, h).Some?
      && l.forwardReturn == Some(ln(s.close[HorizonEnd(s, obs, h).value] / spot))
      && l.up == Some(if l.forwardReturn.value > 0.0 then 1 else 0)
  {
    hide MaxOf, MinOf, RealizedVariance, Survives, HorizonEnd;
    WindowHolds(s, obs, h, 0);
    var (start, end) := Window(s, obs, h).value;
    var cl := s.close[start..end];
    assert cl[|cl| - 1] == s.close[end - 1];
  }

  /** Direction is 1 exactly for a return above every threshold, and -1 exactly for one below minus every
      threshold, as long as the thresholds are not negative. */
  lemma DirectionNeedsEveryThreshold(r: real, t: Thresholds)
    requires t.minReturn >= 0.0
    ensures var implied := (if t.impliedMove.Some? then t.impliedMove.value else 0.0) * t.moveFraction;
      && (DirectionLabel(r, t) == 1 <==> r > t.minReturn && r > implied && r > t.costEquivalent)
      && (DirectionLabel(r, t) == -1 <==> -r > t.minReturn && -r > implied && -r > t.costEquivalent)
      && DirectionLabel(r, t) in {-1, 0, 1}
      && DirectionLabel(-r, t) == -DirectionLabel(r, t)
  {
  }

  ghost predicate Increasing(ln: real -> real) {
    forall x: real, y: real :: 0.0 < x <= y ==> ln(x) <= ln(y)
  }

  /** The excursions are attained by bars of the window and bound the return of every one of them. */
  lemma ExcursionsBound(ln: real -> real, hi: seq<real>, lo: seq<real>, cl: seq<real>, spot: real, walls: Walls,
                        t: Thresholds, j: nat)
    requires |hi| == |lo| == |cl| && j < |hi| && spot > 0.0 && Increasing(ln)
    requires forall i :: 0 <= i < |hi| ==> 0.0 < lo[i] <= cl[i] <= hi[i]
    ensures var l := LabelsOf(ln, hi, lo, cl, spot, walls, t);
      && l.upMae.value <= ln(cl[j] / spot) <= l.upMfe.value
      && (exists i :: 0 <= i < |hi| && l.upMfe.value == ln(hi[i] / spot))
      && (exists i :: 0 <= i < |lo| && l.upMae.value == ln(lo[i] / spot))
      && l.upMae.value <= l.forwardReturn.value <= l.upMfe.value
  {
    hide RealizedVariance, Survives, MaxOf, MinOf, Increasing;
    ReturnWithin(ln, hi, lo, cl, spot, j);
    ReturnWithin(ln, hi, lo, cl, spot, |cl| - 1);
    var a :| 0 <= a < |hi| && hi[a] == MaxOf(hi);
    var b :| 0 <= b < |lo| && lo[b] == MinOf(lo);
  }

  function ReturnOf(ln: real -> real, price: real, spot: real): real
    requires spot != 0.0
  {
    ln(price / spot)
  }

  lemma ReturnWithin(ln: real -> real, hi: seq<real>, lo: seq<real>, cl: seq<real>, spot: real, j: nat)
    requires |hi| == |lo| == |cl| && j < |hi| && spot > 0.0 && Increasing(ln)
    requires forall i :: 0 <= i < |hi| ==> 0.0 < lo[i] <= cl[i] <= hi[i]
    ensures ReturnOf(ln, MinOf(lo), spot) <= ReturnOf(ln, cl[j], spot) <= ReturnOf(ln, MaxOf(hi), spot)
  {
    LeastPositive(lo);
    Extremes(lo, j);
    Extremes(hi, j);
    hide Increasing, ReturnOf, MinOf, MaxOf;
    assert 0.0 < lo[j] <= cl[j] <= hi[j];
    ReturnsInOrder(ln, MinOf(lo), cl[j], spot);
    ReturnsInOrder(ln, cl[j], MaxOf(hi), spot);
  }

  lemma Extremes(s: seq<real>, j: nat)
    requires j < |s|
    ensures MinOf(s) <= s[j] <= MaxOf(s)
  {
    hide MinOf, MaxOf;
    assert s[j] in s;
  }

  lemma LeastPositive(s: seq<real>)
    requires s != [] && forall i :: 0 <= i < |s| ==> s[i] > 0.0
    ensures MinOf(s) > 0.0
  {
  }

  lemma ReturnsInOrder(ln: real -> real, x: real, y: real, spot: real)
    requires 0.0 < x <= y && spot > 0.0 && Increasing(ln)
    ensures ReturnOf(ln, x, spot) <= ReturnOf(ln, y, spot)
  {
    SharesInOrder(x, y, spot);
  }

  lemma SharesInOrder(x: real, y: real, spot: real)
    requires 0.0 < x <= y && spot > 0.0
    ensures 0.0 < x / spot <= y / spot
  {
    var p, q := x / spot, y / spot;
    QuotientTimes(x, spot);
    QuotientTimes(y, spot);
    ProductSign(spot, p);
    if p > q { ProductSign(spot, p - q); Distribute(spot, p, q); }
  }

  // ----- Realized variance -----

  /** The variance label of a horizon is that of spot and then the closes of its bars. */
  lemma VarianceOfHorizon(ln: real -> real, s: LabelerData, obs: int, h: Horizon, spot: real, walls: Walls,
                          t: Thresholds,
                          start: nat, end: nat)
    requires Valid(s) && spot != 0.0 && Window(s, obs, h) == Some((start, end))
    ensures start < end <= |s.ts| && forall j: nat :: InHorizon(s, obs, h, j) <==> start <= j < end
    ensures LabelsAt(ln, s, obs, h, spot, walls, t).realizedVariance
         == Some(RealizedVariance(ln, spot, s.close[start..end]))
  {
    hide MaxOf, MinOf, RealizedVariance, InHorizon, HorizonEnd;
    BarsOfWindow(s, obs, h);
  }

  /** Of one bar it is the square of its return; over consecutive stretches it adds up. */
  lemma VarianceOfOneBar(ln: real -> real, previous: real, close: real)
    ensures RealizedVariance(ln, previous, [close]) == (ln(close) - ln(previous)) * (ln(close) - ln(previous))
  {
    assert [close][1..] == [];
  }

  lemma {:induction false} VarianceAddsUp(ln: real -> real, previous: real, a: seq<real>, b: seq<real>)
    ensures RealizedVariance(ln, previous, a + b)
         == RealizedVariance(ln, previous, a) + RealizedVariance(ln, if a == [] then previous else a[|a| - 1], b)
    decreases |a|
  {
    if a == [] {
      assert a + b == b;
    } else {
      assert (a + b)[1..] == a[1..] + b;
      VarianceAddsUp(ln, a[0], a[1..], b);
    }
  }
}
