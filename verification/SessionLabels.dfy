/** Outcome labels of one observation against its completed session
    (src/spy_der/evaluation/labels.py, SessionLabeler). */
module SessionLabels {
  import opened Options
  import opened RealSeqs
  import opened FirstPassage
  import PathEvents

  const NANOS_PER_MINUTE: int := 60_000_000_000

  datatype Horizon = M5 | M15 | M30 | M60 | Close

  const HORIZONS: seq<Horizon> := [M5, M15, M30, M60, Close]

  function Minutes(h: Horizon): int
    requires h != Close
  {
    match h
    case M5 => 5
    case M15 => 15
    case M30 => 30
    case M60 => 60
  }

  /** Times are integer nanoseconds; construction refuses empty or unsorted sessions. */
  datatype LabelerData = LabelerData(ts: seq<int>, high: seq<real>, low: seq<real>, close: seq<real>,
                                     baseBarMinutes: int)

  ghost predicate Ascending(ts: seq<int>) { forall i, j :: 0 <= i < j < |ts| ==> ts[i] < ts[j] }

  ghost predicate Valid(s: LabelerData) {
    |s.ts| >= 1 && |s.high| == |s.low| == |s.close| == |s.ts| && Ascending(s.ts)
  }

  // ----- Index arithmetic -----

  /** The first index not before x. */
  function SearchLeft(ts: seq<int>, x: int): (i: nat)
    requires Ascending(ts)
    ensures i <= |ts|
    ensures forall j :: 0 <= j < |ts| ==> (ts[j] < x <==> j < i)
  {
    if ts == [] then 0
    else
      var n := |ts| - 1;
      if ts[n] < x then |ts| else SearchLeft(ts[..n], x)
  }

  /** The first index after x. */
  function SearchRight(ts: seq<int>, x: int): (i: nat)
    requires Ascending(ts)
    ensures i <= |ts|
    ensures forall j :: 0 <= j < |ts| ==> (ts[j] <= x <==> j < i)
  {
    SearchLeft(ts, x + 1)
  }

  function FutureStart(s: LabelerData, obs: int): (i: nat)
    requires Valid(s)
    ensures i <= |s.ts|
  {
    SearchRight(s.ts, obs)
  }

  /** The bar that ends the horizon; missing past the session close or across a data gap. */
  function HorizonEnd(s: LabelerData, obs: int, h: Horizon): (i: Option<nat>)
    requires Valid(s)
    ensures i.Some? ==> i.value < |s.ts|
  {
    var sessionClose := s.ts[|s.ts| - 1];
    if h == Close then (if obs < sessionClose then Some(|s.ts| - 1) else None)
    else
      var boundary := obs + Minutes(h) * NANOS_PER_MINUTE;
      if boundary > sessionClose then None
      else
        var i := SearchLeft(s.ts, boundary);
        if i >= |s.ts| || s.ts[i] - boundary > s.baseBarMinutes * NANOS_PER_MINUTE then None else Some(i)
  }

  /** The bars strictly after the observation up to the end of the horizon, if the horizon is defined. */
  function Window(s: LabelerData, obs: int, h: Horizon): (w: Option<(nat, nat)>)
    requires Valid(s)
    ensures w.Some? ==> w.value.0 == FutureStart(s, obs) && w.value.0 < w.value.1 <= |s.ts|
  {
    var start, end := FutureStart(s, obs), HorizonEnd(s, obs, h);
    if end.Some? && end.value >= start then Some((start, end.value + 1)) else None
  }

  // ----- The labels of one horizon -----

  datatype Walls = Walls(callWall: Option<real>, putWall: Option<real>, gammaFlip: Option<real>)

  datatype Thresholds = Thresholds(impliedMove: Option<real>, minReturn: real, moveFraction: real, costEquivalent: real)

  datatype HorizonLabels = HorizonLabels(
    forwardReturn: Option<real>,
    up: Option<int>,
    direction: Option<int>,
    upMfe: Option<real>,
    upMae: Option<real>,
    realizedVariance: Option<real>,
    touchCallWall: Option<int>,
    touchPutWall: Option<int>,
    touchGammaFlip: Option<int>,
    crossGammaFlip: Option<int>,
    rangeSurvive: Option<int>)

  function AsInt(b: bool): int { if b then 1 else 0 }

  function DirectionLabel(forwardReturn: real, t: Thresholds): int {
    var implied := if t.impliedMove.Some? then t.impliedMove.value else 0.0;
    var threshold := Max(Max(t.minReturn, implied * t.moveFraction), t.costEquivalent);
    if forwardReturn > threshold then 1 else if forwardReturn < -threshold then -1 else 0
  }

  /** Sum of squared log returns along spot and then the window's closes; ln is left abstract. */
  function RealizedVariance(ln: real -> real, previous: real, closes: seq<real>): real
    decreases closes
  {
    if closes == [] then 0.0
    else
      var r := ln(closes[0]) - ln(previous);
      r * r + RealizedVariance(ln, closes[0], closes[1..])
  }

  function CallTouches(hi: seq<real>, callWall: real): (r: seq<bool>)
    ensures |r| == |hi|
  {
    seq(|hi|, i requires 0 <= i < |hi| => hi[i] >= callWall)
  }

  function PutTouches(lo: seq<real>, putWall: real): (r: seq<bool>)
    ensures |r| == |lo|
  {
    seq(|lo|, i requires 0 <= i < |lo| => lo[i] <= putWall)
  }

  function FlipTouches(hi: seq<real>, lo: seq<real>, flip: real): (r: seq<bool>)
    requires |hi| == |lo|
    ensures |r| == |hi|
  {
    seq(|hi|, i requires 0 <= i < |hi| => lo[i] <= flip <= hi[i])
  }

  function FlipCrossings(cl: seq<real>, spot: real, flip: real): (r: seq<bool>)
    ensures |r| == |cl|
  {
    seq(|cl|, i requires 0 <= i < |cl| => PathEvents.CrossesAt(PathEvents.Sign(spot - flip), cl[i], flip))
  }

  /** Everything is computed from the window's bars alone. */
  function LabelsOf(ln: real -> real, hi: seq<real>, lo: seq<real>, cl: seq<real>, spot: real, walls: Walls,
                    t: Thresholds): HorizonLabels
    requires |hi| == |lo| == |cl| >= 1 && spot != 0.0
  {
    var fwd := ln(cl[|cl| - 1] / spot);
    HorizonLabels(
      Some(fwd),
      Some(AsInt(fwd > 0.0)),
      Some(DirectionLabel(fwd, t)),
      Some(ln(MaxOf(hi) / spot)),
      Some(ln(MinOf(lo) / spot)),
      Some(RealizedVariance(ln, spot, cl)),
      if walls.callWall.Some? then Some(AsInt(AnyTrue(CallTouches(hi, walls.callWall.value)))) else None,
      if walls.putWall.Some? then Some(AsInt(AnyTrue(PutTouches(lo, walls.putWall.value)))) else None,
      if walls.gammaFlip.Some? then Some(AsInt(AnyTrue(FlipTouches(hi, lo, walls.gammaFlip.value)))) else None,
      if walls.gammaFlip.Some? then Some(AsInt(AnyTrue(FlipCrossings(cl, spot, walls.gammaFlip.value)))) else None,
      if walls.callWall.Some? && walls.putWall.Some?
      then Some(AsInt(Survives(hi, lo, walls.putWall.value, walls.callWall.value))) else None)
  }

  const MissingLabels := HorizonLabels(None, None, None, None, None, None, None, None, None, None, None)

  function LabelsAt(ln: real -> real, s: LabelerData, obs: int, h: Horizon, spot: real, walls: Walls,
                    t: Thresholds): HorizonLabels
    requires Valid(s) && spot != 0.0
  {
    var w := Window(s, obs, h);
    if w.None? then MissingLabels
    else LabelsOf(ln, s.high[w.value.0..w.value.1], s.low[w.value.0..w.value.1], s.close[w.value.0..w.value.1], spot,
                  walls, t)
  }

  method LabelHorizons(ln: real -> real, s: LabelerData, obs: int, spot: real, walls: Walls, t: Thresholds)
    returns (out: map<Horizon, HorizonLabels>)
    requires Valid(s) && spot != 0.0
    ensures forall h :: h in out && out[h] == LabelsAt(ln, s, obs, h, spot, walls, t)
  {
    hide LabelsOf, Window;
    out := map[];
    for i := 0 to |HORIZONS|
      invariant forall j :: 0 <= j < i ==>
        HORIZONS[j] in out && out[HORIZONS[j]] == LabelsAt(ln, s, obs, HORIZONS[j], spot, walls, t)
    {
      var h := HORIZONS[i];
      var window := Window(s, obs, h);
      var labels := MissingLabels;
      if window.Some? {
        var (start, end) := window.value;
        WindowInRange(s, obs, h);
        labels := LabelsOf(ln, s.high[start..end], s.low[start..end], s.close[start..end], spot, walls, t);
      }
      out := out[h := labels];
    }
    forall h ensures h in out && out[h] == LabelsAt(ln, s, obs, h, spot, walls, t) {
      assert h in HORIZONS by {
        match h
        case M5 => assert HORIZONS[0] == h;
        case M15 => assert HORIZONS[1] == h;
        case M30 => assert HORIZONS[2] == h;
        case M60 => assert HORIZONS[3] == h;
        case Close => assert HORIZONS[4] == h;
      }
    }
  }

  lemma WindowInRange(s: LabelerData, obs: int, h: Horizon)
    requires Valid(s) && Window(s, obs, h).Some?
    ensures Window(s, obs, h).value.0 < Window(s, obs, h).value.1 <= |s.ts|
  {
  }

  // ----- Which wall comes first over the rest of the session -----

  function MinutesFrom(s: LabelerData, obs: int, i: nat): real
    requires i < |s.ts|
  {
    (s.ts[i] - obs) as real / NANOS_PER_MINUTE as real
  }

  function FirstTrue(s: seq<bool>): (i: Option<nat>)
    ensures i.None? <==> !AnyTrue(s)
    ensures i.Some? ==> i.value < |s| && s[i.value] && forall j :: 0 <= j < i.value ==> !s[j]
  {
    if s == [] then None
    else if s[0] then Some(0)
    else
      assert forall j :: 0 < j < |s| ==> s[j] == s[1..][j - 1];
      var rest := FirstTrue(s[1..]);
      if rest.None? then None else Some(rest.value + 1)
  }

  function TimeOf(s: LabelerData, obs: int, start: nat, hits: seq<bool>): Option<real>
    requires start + |hits| == |s.ts|
  {
    var i := FirstTrue(hits);
    if i.None? then None else Some(MinutesFrom(s, obs, start + i.value))
  }

  datatype WallLabels = WallLabels(
    callWallFirst: Option<int>,
    putWallFirst: Option<int>,
    neitherWall: Option<int>,
    ambiguous: Option<int>,
    timeToCallWall: Option<real>,
    timeToPutWall: Option<real>,
    timeToFlip: Option<real>)

  ghost function WallEvent(s: LabelerData, start: nat, callWall: real, putWall: real): Event
    requires Valid(s) && start <= |s.ts|
  {
    PassageEvent(true, s.high[start..], s.low[start..], callWall, putWall)
  }

  /** The wall times and first-wall flags, read from the bars after the observation only. */
  ghost function WallLabelsOf(s: LabelerData, obs: int, walls: Walls): WallLabels
    requires Valid(s)
  {
    var start := FutureStart(s, obs);
    var hi, lo := s.high[start..], s.low[start..];
    var both := walls.callWall.Some? && walls.putWall.Some?;
    var e := if both then WallEvent(s, start, walls.callWall.value, walls.putWall.value) else Neither;
    WallLabels(
      if both && e != Ambiguous then Some(AsInt(e == TargetFirst)) else None,
      if both && e != Ambiguous then Some(AsInt(e == StopFirst)) else None,
      if both then Some(AsInt(e == Neither)) else None,
      if both then Some(AsInt(e == Ambiguous)) else None,
      if walls.callWall.Some? then TimeOf(s, obs, start, CallTouches(hi, walls.callWall.value)) else None,
      if walls.putWall.Some? then TimeOf(s, obs, start, PutTouches(lo, walls.putWall.value)) else None,
      if walls.gammaFlip.Some? then TimeOf(s, obs, start, FlipTouches(hi, lo, walls.gammaFlip.value)) else None)
  }

  method WallFirstPassage(s: LabelerData, obs: int, walls: Walls) returns (r: WallLabels)
    requires Valid(s)
    ensures r == WallLabelsOf(s, obs, walls)
  {
    var start := FutureStart(s, obs);
    var hi, lo := s.high[start..], s.low[start..];
    var timeCall, timePut, timeFlip: Option<real> := None, None, None;
    if walls.callWall.Some? {
      timeCall := TimeOf(s, obs, start, CallTouches(hi, walls.callWall.value));
    }
    if walls.putWall.Some? {
      timePut := TimeOf(s, obs, start, PutTouches(lo, walls.putWall.value));
    }
    if walls.gammaFlip.Some? {
      timeFlip := TimeOf(s, obs, start, FlipTouches(hi, lo, walls.gammaFlip.value));
    }
    if walls.callWall.None? || walls.putWall.None? {
      return WallLabels(None, None, None, None, timeCall, timePut, timeFlip);
    }
    var minutes := seq(|hi|, i requires 0 <= i < |hi| => MinutesFrom(s, obs, start + i));
    var passage := ScanFirstPassage(hi, lo, minutes, walls.callWall.value, walls.putWall.value, true);
    assert hi[..|hi|] == hi && lo[..|hi|] == lo;
    var e := passage.firstEvent;
    if e == Ambiguous {
      return WallLabels(None, None, Some(0), Some(passage.ambiguousSameBar), timeCall, timePut, timeFlip);
    }
    return WallLabels(Some(AsInt(e == TargetFirst)), Some(AsInt(e == StopFirst)), Some(AsInt(e == Neither)),
                      Some(passage.ambiguousSameBar), timeCall, timePut, timeFlip);
  }

  // ----- Labels look only forward -----

  /** Two sessions on the same clock whose bars agree after the observation. */
  ghost predicate SameFuture(s: LabelerData, s': LabelerData, obs: int)
    requires Valid(s) && Valid(s')
  {
    && s'.ts == s.ts && s'.baseBarMinutes == s.baseBarMinutes
    && forall i :: 0 <= i < |s.ts| && s.ts[i] > obs ==>
        s'.high[i] == s.high[i] && s'.low[i] == s.low[i] && s'.close[i] == s.close[i]
  }

  lemma SameSlices(s: LabelerData, s': LabelerData, obs: int, end: nat)
    requires Valid(s) && Valid(s') && SameFuture(s, s', obs) && FutureStart(s, obs) <= end <= |s.ts|
    ensures var start := FutureStart(s, obs);
      && FutureStart(s', obs) == start
      && s'.high[start..end] == s.high[start..end]
      && s'.low[start..end] == s.low[start..end]
      && s'.close[start..end] == s.close[start..end]
  {
  }

  lemma SameFutureSlices(s: LabelerData, s': LabelerData, obs: int)
    requires Valid(s) && Valid(s') && SameFuture(s, s', obs)
    ensures var start := FutureStart(s, obs);
      && FutureStart(s', obs) == start && s'.high[start..] == s.high[start..] && s'.low[start..] == s.low[start..]
  {
    SameSlices(s, s', obs, |s.ts|);
    var start := FutureStart(s, obs);
    assert s'.high[start..] == s'.high[start..|s.ts|] && s'.low[start..] == s'.low[start..|s.ts|];
    assert s.high[start..] == s.high[start..|s.ts|] && s.low[start..] == s.low[start..|s.ts|];
  }

  lemma WallLabelsAreForwardOnly(s: LabelerData, s': LabelerData, obs: int, walls: Walls)
    requires Valid(s) && Valid(s') && SameFuture(s, s', obs)
    ensures WallLabelsOf(s', obs, walls) == WallLabelsOf(s, obs, walls)
  {
    hide PassageEvent, CallTouches, PutTouches, FlipTouches, FirstTrue;
    SameFutureSlices(s, s', obs);
  }

  /** Changing prices at or before the observation changes no label at any horizon, nor any wall event or time. */
  lemma LabelsAreForwardOnly(ln: real -> real, s: LabelerData, s': LabelerData, obs: int, spot: real, walls: Walls,
                             t: Thresholds)
    requires Valid(s) && Valid(s') && SameFuture(s, s', obs) && spot != 0.0
    ensures forall h :: LabelsAt(ln, s', obs, h, spot, walls, t) == LabelsAt(ln, s, obs, h, spot, walls, t)
    ensures WallLabelsOf(s', obs, walls) == WallLabelsOf(s, obs, walls)
  {
    hide LabelsOf, WallLabelsOf;
    forall h ensures LabelsAt(ln, s', obs, h, spot, walls, t) == LabelsAt(ln, s, obs, h, spot, walls, t) {
      var w := Window(s, obs, h);
      assert Window(s', obs, h) == w;
      if w.Some? { SameSlices(s, s', obs, w.value.1); }
    }
    WallLabelsAreForwardOnly(s, s', obs, walls);
  }

  // ----- Longer horizons -----

  function Rank(h: Horizon): int {
    match h case M5 => 0 case M15 => 1 case M30 => 2 case M60 => 3 case Close => 4
  }

  lemma SearchLeftMonotone(ts: seq<int>, x: int, y: int)
    requires Ascending(ts) && x <= y
    ensures SearchLeft(ts, x) <= SearchLeft(ts, y)
  {
    var i := SearchLeft(ts, x);
    assert i > 0 ==> ts[i - 1] < x;
  }

  /** Among defined horizons the window of a longer one extends that of a shorter one. */
  lemma WindowsNest(s: LabelerData, obs: int, h: Horizon, h': Horizon)
    requires Valid(s) && Window(s, obs, h).Some? && Window(s, obs, h').Some? && Rank(h) <= Rank(h')
    ensures Window(s, obs, h).value.1 <= Window(s, obs, h').value.1
  {
    if h != Close && h' != Close && Rank(h) < Rank(h') {
      var b, b' := obs + Minutes(h) * NANOS_PER_MINUTE, obs + Minutes(h') * NANOS_PER_MINUTE;
      assert b <= b';
      SearchLeftMonotone(s.ts, b, b');
    }
  }

  lemma AnyTruePrefix(a: seq<bool>, b: seq<bool>)
    requires |a| <= |b| && forall i :: 0 <= i < |a| ==> a[i] == b[i]
    ensures AnyTrue(a) ==> AnyTrue(b)
  {
  }

  /** Both missing, or both there and in order. */
  ghost predicate InOrder(x: Option<int>, y: Option<int>) {
    (x.None? && y.None?) || (x.Some? && y.Some? && x.value <= y.value)
  }

  lemma SliceOfSlice(s: seq<real>, start: nat, end: nat, end': nat)
    requires start <= end <= end' <= |s|
    ensures s[start..end'][..end - start] == s[start..end]
  {
  }

  /** More bars only add touches and crossings. */
  lemma LongerWindowTouchesMore(ln: real -> real, hi: seq<real>, lo: seq<real>, cl: seq<real>, n: nat, spot: real,
                                walls: Walls, t: Thresholds)
    requires |hi| == |lo| == |cl| && 1 <= n <= |hi| && spot != 0.0
    ensures var l, l' :=
      LabelsOf(ln, hi[..n], lo[..n], cl[..n], spot, walls, t), LabelsOf(ln, hi, lo, cl, spot, walls, t);
      && InOrder(l.touchCallWall, l'.touchCallWall) && InOrder(l.touchPutWall, l'.touchPutWall)
      && InOrder(l.touchGammaFlip, l'.touchGammaFlip) && InOrder(l.crossGammaFlip, l'.crossGammaFlip)
  {
    hide MaxOf, MinOf, RealizedVariance, AnyTrue, Survives;
    if walls.callWall.Some? {
      AnyTruePrefix(CallTouches(hi[..n], walls.callWall.value), CallTouches(hi, walls.callWall.value));
    }
    if walls.putWall.Some? {
      AnyTruePrefix(PutTouches(lo[..n], walls.putWall.value), PutTouches(lo, walls.putWall.value));
    }
    if walls.gammaFlip.Some? {
      var flip := walls.gammaFlip.value;
      AnyTruePrefix(FlipTouches(hi[..n], lo[..n], flip), FlipTouches(hi, lo, flip));
      AnyTruePrefix(FlipCrossings(cl[..n], spot, flip), FlipCrossings(cl, spot, flip));
    }
  }

  /** Touching either wall, touching the flip and crossing it are monotone in the horizon, whichever levels
      are given. */
  lemma HorizonsAreMonotone(ln: real -> real, s: LabelerData, obs: int, h: Horizon, h': Horizon, spot: real,
                            walls: Walls, t: Thresholds)
    requires Valid(s) && spot != 0.0
    requires Window(s, obs, h).Some? && Window(s, obs, h').Some? && Rank(h) <= Rank(h')
    ensures var l, l' := LabelsAt(ln, s, obs, h, spot, walls, t), LabelsAt(ln, s, obs, h', spot, walls, t);
      && InOrder(l.touchCallWall, l'.touchCallWall) && InOrder(l.touchPutWall, l'.touchPutWall)
      && InOrder(l.touchGammaFlip, l'.touchGammaFlip) && InOrder(l.crossGammaFlip, l'.crossGammaFlip)
  {
    hide Window, LabelsOf;
    WindowsNest(s, obs, h, h');
    WindowInRange(s, obs, h);
    WindowInRange(s, obs, h');
    var start, end, end' := FutureStart(s, obs), Window(s, obs, h).value.1, Window(s, obs, h').value.1;
    SameStart(s, obs, h);
    SameStart(s, obs, h');
    var hi, lo, cl := s.high[start..end'], s.low[start..end'], s.close[start..end'];
    var n := end - start;
    SliceOfSlice(s.high, start, end, end');
    SliceOfSlice(s.low, start, end, end');
    SliceOfSlice(s.close, start, end, end');
    LongerWindowTouchesMore(ln, hi, lo, cl, n, spot, walls, t);
  }

  /** Surviving the range is touching neither wall, so it is antitone in the horizon. */
  lemma SurvivalIsAntitone(ln: real -> real, s: LabelerData, obs: int, h: Horizon, h': Horizon, spot: real,
                           walls: Walls, t: Thresholds)
    requires Valid(s) && spot != 0.0 && walls.callWall.Some? && walls.putWall.Some?
    requires Window(s, obs, h).Some? && Window(s, obs, h').Some? && Rank(h) <= Rank(h')
    ensures var l, l' := LabelsAt(ln, s, obs, h, spot, walls, t), LabelsAt(ln, s, obs, h', spot, walls, t);
      && InOrder(l'.rangeSurvive, l.rangeSurvive)
      && (l.rangeSurvive.value == 1 <==> l.touchCallWall.value == 0 && l.touchPutWall.value == 0)
  {
    hide Window, AnyTrue, Survives, LabelsAt;
    HorizonsAreMonotone(ln, s, obs, h, h', spot, walls, t);
    SurvivalAt(ln, s, obs, h, spot, walls, t);
    SurvivalAt(ln, s, obs, h', spot, walls, t);
  }

  lemma SurvivalAt(ln: real -> real, s: LabelerData, obs: int, h: Horizon, spot: real, walls: Walls, t: Thresholds)
    requires Valid(s) && spot != 0.0 && walls.callWall.Some? && walls.putWall.Some? && Window(s, obs, h).Some?
    ensures var l := LabelsAt(ln, s, obs, h, spot, walls, t);
      && l.rangeSurvive.Some? && l.touchCallWall.Some? && l.touchPutWall.Some?
      && 0 <= l.touchCallWall.value <= 1 && 0 <= l.touchPutWall.value <= 1
      && l.rangeSurvive.value == (if l.touchCallWall.value == 0 && l.touchPutWall.value == 0 then 1 else 0)
  {
    hide Window, MaxOf, MinOf, RealizedVariance, FlipTouches, FlipCrossings, AnyTrue, Survives;
    WindowInRange(s, obs, h);
    var (start, end) := Window(s, obs, h).value;
    SurvivalLabel(s.high[start..end], s.low[start..end], walls.putWall.value, walls.callWall.value);
  }

  lemma SameStart(s: LabelerData, obs: int, h: Horizon)
    requires Valid(s) && Window(s, obs, h).Some?
    ensures Window(s, obs, h).value.0 == FutureStart(s, obs)
  {
  }

  lemma SurvivalLabel(hi: seq<real>, lo: seq<real>, putWall: real, callWall: real)
    requires |hi| == |lo|
    ensures Survives(hi, lo, putWall, callWall) <==>
      !AnyTrue(CallTouches(hi, callWall)) && !AnyTrue(PutTouches(lo, putWall))
  {
    SurvivalIsUntouched(hi, lo, putWall, callWall);
    TouchesAreHits(hi, lo, callWall, putWall);
  }

  // ----- Wall labels agree with the wall times -----

  lemma TimesOrdered(s: LabelerData, obs: int, i: nat, j: nat)
    requires Valid(s) && i < |s.ts| && j < |s.ts|
    ensures MinutesFrom(s, obs, i) < MinutesFrom(s, obs, j) <==> i < j
    ensures MinutesFrom(s, obs, i) == MinutesFrom(s, obs, j) <==> i == j
  {
    assert i < j ==> s.ts[i] < s.ts[j];
    assert j < i ==> s.ts[j] < s.ts[i];
  }

  predicate Precedes(a: Option<real>, b: Option<real>) { a.Some? && (b.None? || a.value < b.value) }

  /** The first-wall event read off the two wall times: a wall is first exactly when its time exists and precedes
      the other's; the bar is ambiguous exactly when both times exist and are equal. */
  lemma WallEventMatchesTimes(s: LabelerData, obs: int, callWall: real, putWall: real)
    requires Valid(s)
    ensures var start := FutureStart(s, obs);
      var e := WallEvent(s, start, callWall, putWall);
      var call, put := TimeOf(s, obs, start, CallTouches(s.high[start..], callWall)),
        TimeOf(s, obs, start, PutTouches(s.low[start..], putWall));
      && (e == TargetFirst <==> Precedes(call, put))
      && (e == StopFirst <==> Precedes(put, call))
      && (e == Ambiguous <==> call.Some? && put.Some? && call.value == put.value)
      && (e == Neither <==> call.None? && put.None?)
  {
    hide EventUpTo, FirstTrue, CallTouches, PutTouches;
    var start := FutureStart(s, obs);
    var hi, lo := s.high[start..], s.low[start..];
    var calls, puts := CallTouches(hi, callWall), PutTouches(lo, putWall);
    TouchesAreHits(hi, lo, callWall, putWall);
    EventByFirstTrue(calls, puts);
    hide MinutesFrom;
    var c, p := FirstTrue(calls), FirstTrue(puts);
    if c.Some? && p.Some? {
      TimesOrdered(s, obs, start + c.value, start + p.value);
      TimesOrdered(s, obs, start + p.value, start + c.value);
    }
  }

  lemma TouchesAreHits(hi: seq<real>, lo: seq<real>, callWall: real, putWall: real)
    requires |hi| == |lo|
    ensures TargetHits(true, hi, lo, callWall) == CallTouches(hi, callWall)
    ensures StopHits(true, hi, lo, putWall) == PutTouches(lo, putWall)
  {
  }

  lemma EventByFirstTrue(a: seq<bool>, b: seq<bool>)
    requires |a| == |b|
    ensures var e, i, j := EventUpTo(a, b, |a|), FirstTrue(a), FirstTrue(b);
      && (e == Neither <==> i.None? && j.None?)
      && (e == TargetFirst <==> i.Some? && (j.None? || i.value < j.value))
      && (e == StopFirst <==> j.Some? && (i.None? || j.value < i.value))
      && (e == Ambiguous <==> i.Some? && j.Some? && i.value == j.value)
  {
    hide EventUpTo, FirstTrue;
    var i, j := FirstTrue(a), FirstTrue(b);
    NoHitNoEvent(a, b, |a|);
    if i.Some? || j.Some? {
      var k := if i.Some? && (j.None? || i.value <= j.value) then i.value else j.value;
      assert FirstHit(a, b, k);
      EventOfFirstHit(a, b, k, |a|);
    }
  }
}
