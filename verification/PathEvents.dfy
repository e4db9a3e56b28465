/** Barrier events scored over all simulated paths at once
    (src/spy_der/forecasting/path_model.py, score_path_events). */
module PathEvents {
  import opened Options
  import opened RealSeqs
  import opened FirstPassage

  // ----- One path -----

  function StepHighs(path: seq<real>): (r: seq<real>)
    requires |path| >= 1
    ensures |r| == |path| - 1
  {
    seq(|path| - 1, t requires 0 <= t < |path| - 1 => Max(path[t], path[t + 1]))
  }

  function StepLows(path: seq<real>): (r: seq<real>)
    requires |path| >= 1
    ensures |r| == |path| - 1
  {
    seq(|path| - 1, t requires 0 <= t < |path| - 1 => Min(path[t], path[t + 1]))
  }

  /** An absent wall is never hit. */
  function CallHits(path: seq<real>, callWall: Option<real>): (r: seq<bool>)
    requires |path| >= 1
    ensures |r| == |path| - 1
  {
    if callWall.Some? then TargetHits(true, StepHighs(path), StepLows(path), callWall.value)
    else seq(|path| - 1, _ => false)
  }

  function PutHits(path: seq<real>, putWall: Option<real>): (r: seq<bool>)
    requires |path| >= 1
    ensures |r| == |path| - 1
  {
    if putWall.Some? then StopHits(true, StepHighs(path), StepLows(path), putWall.value)
    else seq(|path| - 1, _ => false)
  }

  // ----- All paths -----

  ghost predicate IsGrid(paths: seq<seq<real>>, cols: nat) {
    forall p :: 0 <= p < |paths| ==> |paths[p]| == cols
  }

  /** The barrier state of every path after its first n steps. */
  ghost predicate BarrierState(targets: seq<seq<bool>>, stops: seq<seq<bool>>, n: nat,
                               hitTarget: seq<bool>, hitStop: seq<bool>, live: seq<bool>)
  {
    && |targets| == |stops| == |hitTarget| == |hitStop| == |live|
    && forall p :: 0 <= p < |targets| ==>
         && n <= |targets[p]| && n <= |stops[p]|
         && var e := EventUpTo(targets[p], stops[p], n);
            (hitTarget[p] <==> e == TargetFirst) && (hitStop[p] <==> e == StopFirst || e == Ambiguous)
                && (live[p] <==> e == Neither)
  }

  function CountTrue(s: seq<bool>): nat {
    if s == [] then 0 else CountTrue(s[..|s| - 1]) + if s[|s| - 1] then 1 else 0
  }

  lemma {:induction false} CountUnion(a: seq<bool>, b: seq<bool>, c: seq<bool>)
    requires |a| == |b| == |c| && forall i :: 0 <= i < |a| ==> c[i] == (a[i] || b[i]) && !(a[i] && b[i])
    ensures CountTrue(c) == CountTrue(a) + CountTrue(b)
  {
    if a != [] {
      var n := |a| - 1;
      CountUnion(a[..n], b[..n], c[..n]);
    }
  }

  lemma {:induction false} CountAll(a: seq<bool>)
    ensures CountTrue(a) <= |a|
    ensures (forall i :: 0 <= i < |a| ==> a[i]) ==> CountTrue(a) == |a|
    ensures CountTrue(a) == 0 <==> !AnyTrue(a)
  {
    if a != [] {
      CountAll(a[..|a| - 1]);
      if AnyTrue(a[..|a| - 1]) {
        var i :| 0 <= i < |a| - 1 && a[..|a| - 1][i];
        assert a[i];
      }
    }
  }

  /** One masked step over all paths, decided by the step's target and stop hits. */
  method MaskStep(tHit: seq<bool>, sHit: seq<bool>, hitTarget: seq<bool>, hitStop: seq<bool>, live: seq<bool>,
                  ghost targets: seq<seq<bool>>, ghost stops: seq<seq<bool>>, ghost t: nat)
    returns (hitTarget': seq<bool>, hitStop': seq<bool>, live': seq<bool>, both: seq<bool>)
    requires BarrierState(targets, stops, t, hitTarget, hitStop, live)
    requires |tHit| == |sHit| == |targets|
    requires forall p :: 0 <= p < |targets| ==>
      t < |targets[p]| && t < |stops[p]| && targets[p][t] == tHit[p] && stops[p][t] == sHit[p]
    ensures BarrierState(targets, stops, t + 1, hitTarget', hitStop', live')
    ensures CountTrue(AmbiguousAt(targets, stops, t + 1)) == CountTrue(AmbiguousAt(targets, stops, t)) + CountTrue(both)
  {
    hide CountTrue, AmbiguousAt;
    var n := |live|;
    both := seq(n, p requires 0 <= p < n => live[p] && tHit[p] && sHit[p]);
    var onlyTarget := seq(n, p requires 0 <= p < n => live[p] && tHit[p] && !sHit[p]);
    var onlyStop := seq(n, p requires 0 <= p < n => live[p] && sHit[p] && !tHit[p]);
    hitStop' := seq(n, p requires 0 <= p < n => hitStop[p] || both[p] || onlyStop[p]);
    hitTarget' := seq(n, p requires 0 <= p < n => hitTarget[p] || onlyTarget[p]);
    live' := seq(n, p requires 0 <= p < n => live[p] && !(both[p] || onlyTarget[p] || onlyStop[p]));
    AmbiguityCounted(targets, stops, t, live, both);
  }

  ghost function AmbiguousAt(targets: seq<seq<bool>>, stops: seq<seq<bool>>, n: nat): (r: seq<bool>)
    requires |targets| == |stops| && forall p :: 0 <= p < |targets| ==> n <= |targets[p]| && n <= |stops[p]|
    ensures |r| == |targets|
  {
    seq(|targets|, p requires 0 <= p < |targets| => EventUpTo(targets[p], stops[p], n) == Ambiguous)
  }

  ghost function AllTargetHits(paths: seq<seq<real>>, up: bool, target: real): (r: seq<seq<bool>>)
    requires forall p :: 0 <= p < |paths| ==> |paths[p]| >= 1
    ensures |r| == |paths|
  {
    seq(|paths|, p requires 0 <= p < |paths| => TargetHits(up, StepHighs(paths[p]), StepLows(paths[p]), target))
  }

  ghost function AllStopHits(paths: seq<seq<real>>, up: bool, stop: real): (r: seq<seq<bool>>)
    requires forall p :: 0 <= p < |paths| ==> |paths[p]| >= 1
    ensures |r| == |paths|
  {
    seq(|paths|, p requires 0 <= p < |paths| => StopHits(up, StepHighs(paths[p]), StepLows(paths[p]), stop))
  }

  /** Once no path is live every event is final. */
  lemma NoneLiveIsFinal(targets: seq<seq<bool>>, stops: seq<seq<bool>>, n: nat, m: nat,
                        hitTarget: seq<bool>, hitStop: seq<bool>, live: seq<bool>)
    requires BarrierState(targets, stops, n, hitTarget, hitStop, live) && !AnyTrue(live)
    requires n <= m && forall p :: 0 <= p < |targets| ==> m <= |targets[p]| && m <= |stops[p]|
    ensures BarrierState(targets, stops, m, hitTarget, hitStop, live)
    ensures AmbiguousAt(targets, stops, m) == AmbiguousAt(targets, stops, n)
  {
    forall p | 0 <= p < |targets| ensures EventUpTo(targets[p], stops[p], m) == EventUpTo(targets[p], stops[p], n) {
      assert !live[p];
      DecidedStays(targets[p], stops[p], n, m);
    }
  }

  lemma {:induction false} DecidedStays(targets: seq<bool>, stops: seq<bool>, n: nat, m: nat)
    requires n <= m <= |targets| && m <= |stops| && EventUpTo(targets, stops, n) != Neither
    ensures EventUpTo(targets, stops, m) == EventUpTo(targets, stops, n)
  {
    if n < m { DecidedStays(targets, stops, n, m - 1); }
  }

  /** The masked loop over all paths computes, path by path, the scalar first passage:
      target, stop (ambiguity included) and neither, and counts the ambiguous paths. */
  method ScoreBarriers(paths: seq<seq<real>>, cols: nat, spot: real, target: real, stop: real)
    returns (hitTarget: seq<bool>, hitStop: seq<bool>, ambiguous: nat, ghost live: seq<bool>)
    requires cols >= 2 && IsGrid(paths, cols)
    ensures |hitTarget| == |hitStop| == |paths|
    ensures forall p :: 0 <= p < |paths| ==>
      var e := PassageEvent(target >= spot, StepHighs(paths[p]), StepLows(paths[p]), target, stop);
      && (hitTarget[p] <==> Conservative(e) == TargetFirst)
      && (hitStop[p] <==> Conservative(e) == StopFirst)
      && (!hitTarget[p] && !hitStop[p] <==> Conservative(e) == Neither)
    ensures var targets, stops :=
      AllTargetHits(paths, target >= spot, target), AllStopHits(paths, target >= spot, stop);
      && ambiguous == CountTrue(AmbiguousAt(targets, stops, cols - 1))
      && BarrierState(targets, stops, cols - 1, hitTarget, hitStop, live)
  {
    hide EventUpTo, CountTrue, AmbiguousAt, BarrierState, AnyTrue;
    var n, up := |paths|, target >= spot;
    hitTarget, hitStop := seq(n, _ => false), seq(n, _ => false);
    var alive := seq(n, _ => true);
    ambiguous := 0;
    ghost var targets, stops := AllTargetHits(paths, up, target), AllStopHits(paths, up, stop);
    NothingYet(targets, stops, hitTarget, hitStop, alive);
    var t := 1;
    while t < cols
      invariant 1 <= t <= cols
      invariant BarrierState(targets, stops, t - 1, hitTarget, hitStop, alive)
      invariant ambiguous == CountTrue(AmbiguousAt(targets, stops, t - 1))
    {
      if !AnyTrue(alive) {
        break;
      }
      var tHit, sHit := BarrierColumn(paths, cols, t, up, target, stop);
      var both;
      hitTarget, hitStop, alive, both := MaskStep(tHit, sHit, hitTarget, hitStop, alive, targets, stops, t - 1);
      ambiguous := ambiguous + CountTrue(both);
      t := t + 1;
    }
    if t < cols {
      NoneLiveIsFinal(targets, stops, t - 1, cols - 1, hitTarget, hitStop, alive);
    }
    live := alive;
    FinalState(paths, cols, up, target, stop, hitTarget, hitStop, alive);
  }

  /** Which paths hit the barriers in step t: the step spans its two prices. */
  method BarrierColumn(paths: seq<seq<real>>, cols: nat, t: nat, up: bool, target: real, stop: real)
    returns (tHit: seq<bool>, sHit: seq<bool>)
    requires 1 <= t < cols && IsGrid(paths, cols)
    ensures |tHit| == |sHit| == |paths|
    ensures forall p :: 0 <= p < |paths| ==> AllTargetHits(paths, up, target)[p][t - 1] == tHit[p]
    ensures forall p :: 0 <= p < |paths| ==> AllStopHits(paths, up, stop)[p][t - 1] == sHit[p]
  {
    var n := |paths|;
    var lo := seq(n, p requires 0 <= p < n => Min(paths[p][t - 1], paths[p][t]));
    var hi := seq(n, p requires 0 <= p < n => Max(paths[p][t - 1], paths[p][t]));
    tHit := seq(n, p requires 0 <= p < n => if up then hi[p] >= target else lo[p] <= target);
    sHit := seq(n, p requires 0 <= p < n => if up then lo[p] <= stop else hi[p] >= stop);
  }

  lemma NothingYet(targets: seq<seq<bool>>, stops: seq<seq<bool>>, hitTarget: seq<bool>, hitStop: seq<bool>,
                   live: seq<bool>)
    requires |targets| == |stops| == |hitTarget| == |hitStop| == |live|
    requires forall p :: 0 <= p < |live| ==> live[p] && !hitTarget[p] && !hitStop[p]
    ensures BarrierState(targets, stops, 0, hitTarget, hitStop, live)
    ensures CountTrue(AmbiguousAt(targets, stops, 0)) == 0
  {
    CountAll(AmbiguousAt(targets, stops, 0));
  }

  lemma FinalState(paths: seq<seq<real>>, cols: nat, up: bool, target: real, stop: real,
                   hitTarget: seq<bool>, hitStop: seq<bool>, live: seq<bool>)
    requires cols >= 2 && IsGrid(paths, cols)
    requires BarrierState(AllTargetHits(paths, up, target), AllStopHits(paths, up, stop), cols - 1, hitTarget,
                          hitStop, live)
    ensures |hitTarget| == |hitStop| == |paths|
    ensures forall p :: 0 <= p < |paths| ==>
      var e := PassageEvent(up, StepHighs(paths[p]), StepLows(paths[p]), target, stop);
      && (hitTarget[p] <==> Conservative(e) == TargetFirst)
      && (hitStop[p] <==> Conservative(e) == StopFirst)
      && (!hitTarget[p] && !hitStop[p] <==> Conservative(e) == Neither)
  {
    hide EventUpTo;
  }

  lemma AmbiguityCounted(targets: seq<seq<bool>>, stops: seq<seq<bool>>, n: nat, live: seq<bool>, both: seq<bool>)
    requires |targets| == |stops| == |live| == |both|
    requires forall p :: 0 <= p < |targets| ==>
      && n < |targets[p]| && n < |stops[p]|
      && (live[p] <==> EventUpTo(targets[p], stops[p], n) == Neither)
      && both[p] == (live[p] && targets[p][n] && stops[p][n])
    ensures CountTrue(AmbiguousAt(targets, stops, n + 1)) == CountTrue(AmbiguousAt(targets, stops, n)) + CountTrue(both)
  {
    CountUnion(AmbiguousAt(targets, stops, n), both, AmbiguousAt(targets, stops, n + 1));
  }

  // ----- Walls -----

  ghost function AllCallHits(paths: seq<seq<real>>, callWall: Option<real>): (r: seq<seq<bool>>)
    requires forall p :: 0 <= p < |paths| ==> |paths[p]| >= 1
    ensures |r| == |paths|
  {
    seq(|paths|, p requires 0 <= p < |paths| => CallHits(paths[p], callWall))
  }

  ghost function AllPutHits(paths: seq<seq<real>>, putWall: Option<real>): (r: seq<seq<bool>>)
    requires forall p :: 0 <= p < |paths| ==> |paths[p]| >= 1
    ensures |r| == |paths|
  {
    seq(|paths|, p requires 0 <= p < |paths| => PutHits(paths[p], putWall))
  }

  method WallColumn(paths: seq<seq<real>>, cols: nat, t: nat, callWall: Option<real>, putWall: Option<real>)
    returns (cHit: seq<bool>, pHit: seq<bool>)
    requires 1 <= t < cols && IsGrid(paths, cols)
    ensures |cHit| == |pHit| == |paths|
    ensures forall p :: 0 <= p < |paths| ==> AllCallHits(paths, callWall)[p][t - 1] == cHit[p]
    ensures forall p :: 0 <= p < |paths| ==> AllPutHits(paths, putWall)[p][t - 1] == pHit[p]
  {
    var n := |paths|;
    var lo := seq(n, p requires 0 <= p < n => Min(paths[p][t - 1], paths[p][t]));
    var hi := seq(n, p requires 0 <= p < n => Max(paths[p][t - 1], paths[p][t]));
    cHit := seq(n, p requires 0 <= p < n => callWall.Some? && hi[p] >= callWall.value);
    pHit := seq(n, p requires 0 <= p < n => putWall.Some? && lo[p] <= putWall.value);
  }

  /** A touch mask after n steps. */
  ghost predicate TouchState(hits: seq<seq<bool>>, n: nat, touch: seq<bool>) {
    |touch| == |hits| && forall p :: 0 <= p < |hits| ==> n <= |hits[p]| && (touch[p] <==> AnyTrue(hits[p][..n]))
  }

  method MarkTouches(hits: seq<bool>, touch: seq<bool>, ghost all: seq<seq<bool>>, ghost t: nat)
    returns (touch': seq<bool>)
    requires TouchState(all, t, touch) && |hits| == |all|
    requires forall p :: 0 <= p < |all| ==> t < |all[p]| && all[p][t] == hits[p]
    ensures TouchState(all, t + 1, touch')
  {
    touch' := seq(|touch|, p requires 0 <= p < |touch| => touch[p] || hits[p]);
    forall p | 0 <= p < |all| ensures touch'[p] <==> AnyTrue(all[p][..t + 1]) {
      TouchExtends(all[p], t);
    }
  }

  lemma TouchExtends(hits: seq<bool>, t: nat)
    requires t < |hits|
    ensures AnyTrue(hits[..t + 1]) <==> AnyTrue(hits[..t]) || hits[t]
  {
    if hits[t] { assert hits[..t + 1][t]; }
    assert forall i :: 0 <= i < t ==> hits[..t][i] == hits[..t + 1][i];
  }

  /** The wall loop: who was touched at all, and which wall came first. */
  method ScoreWalls(paths: seq<seq<real>>, cols: nat, callWall: Option<real>, putWall: Option<real>)
    returns (touchC: seq<bool>, touchP: seq<bool>, firstC: seq<bool>, firstP: seq<bool>, open: seq<bool>)
    requires cols >= 2 && IsGrid(paths, cols) && (callWall.Some? || putWall.Some?)
    ensures TouchState(AllCallHits(paths, callWall), cols - 1, touchC)
    ensures TouchState(AllPutHits(paths, putWall), cols - 1, touchP)
    ensures BarrierState(AllCallHits(paths, callWall), AllPutHits(paths, putWall), cols - 1, firstC, firstP, open)
  {
    hide EventUpTo, CountTrue, AmbiguousAt, BarrierState, AnyTrue, TouchState;
    var n := |paths|;
    touchC, touchP := seq(n, _ => false), seq(n, _ => false);
    firstC, firstP, open := seq(n, _ => false), seq(n, _ => false), seq(n, _ => true);
    ghost var calls, puts := AllCallHits(paths, callWall), AllPutHits(paths, putWall);
    NothingYet(calls, puts, firstC, firstP, open);
    UntouchedYet(calls, touchC);
    UntouchedYet(puts, touchP);
    for t := 1 to cols
      invariant TouchState(calls, t - 1, touchC)
      invariant TouchState(puts, t - 1, touchP)
      invariant BarrierState(calls, puts, t - 1, firstC, firstP, open)
    {
      var cHit, pHit := WallColumn(paths, cols, t, callWall, putWall);
      touchC := MarkTouches(cHit, touchC, calls, t - 1);
      touchP := MarkTouches(pHit, touchP, puts, t - 1);
      var both;
      firstC, firstP, open, both := MaskStep(cHit, pHit, firstC, firstP, open, calls, puts, t - 1);
    }
  }

  lemma UntouchedYet(hits: seq<seq<bool>>, touch: seq<bool>)
    requires |hits| == |touch| && forall p :: 0 <= p < |touch| ==> !touch[p]
    ensures TouchState(hits, 0, touch)
  {
  }

  // ----- Flip and range -----

  function Sign(x: real): int { if x > 0.0 then 1 else if x < 0.0 then -1 else 0 }

  predicate CrossesAt(side0: int, price: real, flip: real) {
    if side0 == 0 then price != flip else Sign(price - flip) == -side0
  }

  method ScoreFlip(paths: seq<seq<real>>, cols: nat, spot: real, flip: real) returns (cross: seq<bool>)
    requires cols >= 2 && IsGrid(paths, cols)
    ensures |cross| == |paths|
    ensures forall p :: 0 <= p < |paths| ==>
      (cross[p] <==> exists t :: 1 <= t < cols && CrossesAt(Sign(spot - flip), paths[p][t], flip))
  {
    var n, side0 := |paths|, Sign(spot - flip);
    cross := seq(n, _ => false);
    for t := 1 to cols
      invariant |cross| == n
      invariant forall p :: 0 <= p < n ==> (cross[p] <==> exists u :: 1 <= u < t && CrossesAt(side0, paths[p][u], flip))
    {
      cross := seq(n, p requires 0 <= p < n => cross[p] || CrossesAt(side0, paths[p][t], flip));
    }
  }

  method ScoreRange(paths: seq<seq<real>>, cols: nat, lower: real, upper: real) returns (survive: seq<bool>)
    requires cols >= 2 && IsGrid(paths, cols)
    ensures |survive| == |paths|
    ensures forall p :: 0 <= p < |paths| ==>
      (survive[p] <==> Survives(StepHighs(paths[p]), StepLows(paths[p]), lower, upper))
  {
    var n := |paths|;
    survive := seq(n, _ => true);
    for t := 1 to cols
      invariant |survive| == n
      invariant forall p :: 0 <= p < n ==>
        (survive[p] <==> forall u :: 0 <= u < t - 1 ==> lower < StepLows(paths[p])[u] && StepHighs(paths[p])[u] < upper)
    {
      var lo := seq(n, p requires 0 <= p < n => Min(paths[p][t - 1], paths[p][t]));
      var hi := seq(n, p requires 0 <= p < n => Max(paths[p][t - 1], paths[p][t]));
      assert forall p :: 0 <= p < n ==> lo[p] == StepLows(paths[p])[t - 1] && hi[p] == StepHighs(paths[p])[t - 1];
      survive := seq(n, p requires 0 <= p < n => survive[p] && lo[p] > lower && hi[p] < upper);
    }
  }

  // ----- Frequencies -----

  /** The mean of a mask; over no paths at all it is NaN. */
  function Frequency(mask: seq<bool>): Option<real> {
    if mask == [] then None else Some(CountTrue(mask) as real / |mask| as real)
  }

  function Neither2(a: seq<bool>, b: seq<bool>): (r: seq<bool>)
    requires |a| == |b|
    ensures |r| == |a|
  {
    seq(|a|, p requires 0 <= p < |a| => !(a[p] || b[p]))
  }

  datatype Levels = Levels(
    spot: real,
    callWall: Option<real>,
    putWall: Option<real>,
    gammaFlip: Option<real>,
    target: Option<real>,
    stop: Option<real>,
    lower: Option<real>,
    upper: Option<real>)

  datatype PathEventResult = PathEventResult(
    targetFirst: Option<real>,
    stopFirst: Option<real>,
    neither: Option<real>,
    touchCallWall: Option<real>,
    touchPutWall: Option<real>,
    crossGammaFlip: Option<real>,
    callWallFirst: Option<real>,
    putWallFirst: Option<real>,
    neitherWall: Option<real>,
    rangeSurvive: Option<real>,
    ambiguousRate: real)

  /** The paths on which a given event, ambiguity resolved, comes first. */
  ghost function EventMask(a: seq<seq<bool>>, b: seq<seq<bool>>, n: nat, event: Event): (r: seq<bool>)
    requires |a| == |b| && forall p :: 0 <= p < |a| ==> |a[p]| == |b[p]| == n
    ensures |r| == |a|
  {
    seq(|a|, p requires 0 <= p < |a| => Conservative(EventUpTo(a[p], b[p], n)) == event)
  }

  ghost function TouchMask(hits: seq<seq<bool>>): (r: seq<bool>)
    ensures |r| == |hits|
  {
    seq(|hits|, p requires 0 <= p < |hits| => AnyTrue(hits[p]))
  }

  ghost function FlipMask(paths: seq<seq<real>>, cols: nat, spot: real, flip: real): (r: seq<bool>)
    requires IsGrid(paths, cols)
    ensures |r| == |paths|
  {
    seq(|paths|, p requires 0 <= p < |paths| =>
        exists t :: 1 <= t < cols && CrossesAt(Sign(spot - flip), paths[p][t], flip))
  }

  ghost function RangeMask(paths: seq<seq<real>>, lower: real, upper: real): (r: seq<bool>)
    requires forall p :: 0 <= p < |paths| ==> |paths[p]| >= 1
    ensures |r| == |paths|
  {
    seq(|paths|, p requires 0 <= p < |paths| => Survives(StepHighs(paths[p]), StepLows(paths[p]), lower, upper))
  }

  /** The frequency of an event among the barriers; without both levels nothing ever happens. */
  ghost function BarrierFrequency(paths: seq<seq<real>>, cols: nat, l: Levels, event: Event): Option<real>
    requires cols >= 2 && IsGrid(paths, cols)
  {
    if l.target.Some? && l.stop.Some? then
      var up := l.target.value >= l.spot;
      Frequency(EventMask(AllTargetHits(paths, up, l.target.value), AllStopHits(paths, up, l.stop.value), cols - 1,
                          event))
    else Frequency(seq(|paths|, _ => event == Neither))
  }

  ghost function WallFrequency(paths: seq<seq<real>>, cols: nat, l: Levels, event: Event): Option<real>
    requires cols >= 2 && IsGrid(paths, cols)
  {
    Frequency(EventMask(AllCallHits(paths, l.callWall), AllPutHits(paths, l.putWall), cols - 1, event))
  }

  ghost function AmbiguousRate(paths: seq<seq<real>>, cols: nat, l: Levels): real
    requires cols >= 2 && IsGrid(paths, cols)
  {
    if l.target.Some? && l.stop.Some? then
      var up := l.target.value >= l.spot;
      CountTrue(AmbiguousAt(AllTargetHits(paths, up, l.target.value), AllStopHits(paths, up, l.stop.value),
                            cols - 1)) as real
        / AtLeastOne(|paths|) as real
    else 0.0
  }

  function AtLeastOne(n: nat): int { if n > 1 then n else 1 }

  /** What the whole scoring must report, path by path. */
  ghost function Score(paths: seq<seq<real>>, cols: nat, l: Levels): PathEventResult
    requires cols >= 2 && IsGrid(paths, cols)
  {
    PathEventResult(
      if l.target.Some? then BarrierFrequency(paths, cols, l, TargetFirst) else None,
      if l.stop.Some? then BarrierFrequency(paths, cols, l, StopFirst) else None,
      if l.target.Some? then BarrierFrequency(paths, cols, l, Neither) else None,
      if l.callWall.Some? then Frequency(TouchMask(AllCallHits(paths, l.callWall))) else None,
      if l.putWall.Some? then Frequency(TouchMask(AllPutHits(paths, l.putWall))) else None,
      if l.gammaFlip.Some? then Frequency(FlipMask(paths, cols, l.spot, l.gammaFlip.value)) else None,
      if l.callWall.Some? then WallFrequency(paths, cols, l, TargetFirst) else None,
      if l.putWall.Some? then WallFrequency(paths, cols, l, StopFirst) else None,
      if l.callWall.Some? || l.putWall.Some? then WallFrequency(paths, cols, l, Neither) else None,
      if l.lower.Some? && l.upper.Some? then Frequency(RangeMask(paths, l.lower.value, l.upper.value)) else None,
      AmbiguousRate(paths, cols, l))
  }

  lemma StateIsMasks(a: seq<seq<bool>>, b: seq<seq<bool>>, n: nat, first: seq<bool>, second: seq<bool>, live: seq<bool>)
    requires BarrierState(a, b, n, first, second, live)
    requires forall p :: 0 <= p < |a| ==> |a[p]| == |b[p]| == n
    ensures first == EventMask(a, b, n, TargetFirst) && second == EventMask(a, b, n, StopFirst)
    ensures live == EventMask(a, b, n, Neither) && Neither2(first, second) == live
  {
    hide EventUpTo;
  }

  lemma TouchesAreMask(hits: seq<seq<bool>>, n: nat, touch: seq<bool>)
    requires TouchState(hits, n, touch) && forall p :: 0 <= p < |hits| ==> |hits[p]| == n
    ensures touch == TouchMask(hits)
  {
    hide AnyTrue;
    forall p | 0 <= p < |hits| ensures touch[p] == TouchMask(hits)[p] { assert hits[p][..n] == hits[p]; }
  }

  /** Barrier frequencies with both levels given or not. */
  method BarrierFrequencies(paths: seq<seq<real>>, cols: nat, l: Levels)
    returns (targetFirst: Option<real>, stopFirst: Option<real>, neither: Option<real>, ambiguousRate: real)
    requires cols >= 2 && IsGrid(paths, cols)
    ensures targetFirst == BarrierFrequency(paths, cols, l, TargetFirst)
    ensures stopFirst == BarrierFrequency(paths, cols, l, StopFirst)
    ensures neither == BarrierFrequency(paths, cols, l, Neither)
    ensures ambiguousRate == AmbiguousRate(paths, cols, l)
  {
    hide Frequency, EventUpTo, TargetHits, StopHits;
    var hitTarget, hitStop, ambiguous := seq(|paths|, _ => false), seq(|paths|, _ => false), 0;
    if l.target.Some? && l.stop.Some? {
      ghost var live;
      hitTarget, hitStop, ambiguous, live := ScoreBarriers(paths, cols, l.spot, l.target.value, l.stop.value);
      StateIsMasks(AllTargetHits(paths, l.target.value >= l.spot, l.target.value),
                   AllStopHits(paths, l.target.value >= l.spot, l.stop.value), cols - 1, hitTarget, hitStop, live);
    } else {
      assert hitTarget == seq(|paths|, _ => TargetFirst == Neither);
      assert hitStop == seq(|paths|, _ => StopFirst == Neither);
      assert Neither2(hitTarget, hitStop) == seq(|paths|, _ => Neither == Neither);
    }
    targetFirst, stopFirst, neither :=
        Frequency(hitTarget), Frequency(hitStop), Frequency(Neither2(hitTarget, hitStop));
    ambiguousRate := ambiguous as real / AtLeastOne(|paths|) as real;
  }

  /** Frequencies of every event; None where the level is not given. Fewer than one step is an error (None). */
  method ScorePathEvents(paths: seq<seq<real>>, cols: nat, l: Levels) returns (r: Option<PathEventResult>)
    requires IsGrid(paths, cols)
    ensures r == if cols < 2 then None else Some(Score(paths, cols, l))
  {
    hide Frequency, EventUpTo, EventMask, BarrierState, TouchState, BarrierFrequency, AmbiguousRate, CallHits,
        PutHits, Survives, CrossesAt;
    if cols < 2 {
      return None;
    }
    var n := |paths|;
    var targetFirst, stopFirst, neither, ambiguousRate := BarrierFrequencies(paths, cols, l);
    var none := seq(n, _ => false);
    var touchC, touchP, firstC, firstP, open := none, none, none, none, none;
    if l.callWall.Some? || l.putWall.Some? {
      touchC, touchP, firstC, firstP, open := ScoreWalls(paths, cols, l.callWall, l.putWall);
      StateIsMasks(AllCallHits(paths, l.callWall), AllPutHits(paths, l.putWall), cols - 1, firstC, firstP, open);
      TouchesAreMask(AllCallHits(paths, l.callWall), cols - 1, touchC);
      TouchesAreMask(AllPutHits(paths, l.putWall), cols - 1, touchP);
    }
    var cross := none;
    if l.gammaFlip.Some? {
      cross := ScoreFlip(paths, cols, l.spot, l.gammaFlip.value);
      assert cross == FlipMask(paths, cols, l.spot, l.gammaFlip.value);
    }
    var survive := seq(n, _ => true);
    if l.lower.Some? && l.upper.Some? {
      survive := ScoreRange(paths, cols, l.lower.value, l.upper.value);
      assert survive == RangeMask(paths, l.lower.value, l.upper.value);
    }
    r := Some(PathEventResult(
      if l.target.Some? then targetFirst else None,
      if l.stop.Some? then stopFirst else None,
      if l.target.Some? then neither else None,
      if l.callWall.Some? then Frequency(touchC) else None,
      if l.putWall.Some? then Frequency(touchP) else None,
      if l.gammaFlip.Some? then Frequency(cross) else None,
      if l.callWall.Some? then Frequency(firstC) else None,
      if l.putWall.Some? then Frequency(firstP) else None,
      if l.callWall.Some? || l.putWall.Some? then Frequency(open) else None,
      if l.lower.Some? && l.upper.Some? then Frequency(survive) else None,
      ambiguousRate));
  }

  // ----- What the frequencies mean together -----

  /** Target first, stop first and neither partition the paths, and so do the two walls. */
  lemma EventsPartition(a: seq<seq<bool>>, b: seq<seq<bool>>, n: nat)
    requires |a| == |b| >= 1 && forall p :: 0 <= p < |a| ==> |a[p]| == |b[p]| == n
    ensures Frequency(EventMask(a, b, n, TargetFirst)).value + Frequency(EventMask(a, b, n, StopFirst)).value
          + Frequency(EventMask(a, b, n, Neither)).value == 1.0
  {
    hide EventUpTo;
    var x, y, z := EventMask(a, b, n, TargetFirst), EventMask(a, b, n, StopFirst), EventMask(a, b, n, Neither);
    var xy := seq(|a|, p requires 0 <= p < |a| => x[p] || y[p]);
    var xyz := seq(|a|, p requires 0 <= p < |a| => xy[p] || z[p]);
    CountUnion(x, y, xy);
    CountUnion(xy, z, xyz);
    CountAll(xyz);
    ThreeShares(CountTrue(x), CountTrue(y), CountTrue(z), |a|);
  }

  lemma ThreeShares(x: nat, y: nat, z: nat, m: nat)
    requires x + y + z == m >= 1
    ensures x as real / m as real + y as real / m as real + z as real / m as real == 1.0
  {
    var d := m as real;
    AddShares(x as real, y as real, d);
    AddShares((x + y) as real, z as real, d);
    assert d / d == 1.0;
  }

  /** With the call wall as target at or above spot and the put wall as stop, the barrier loop and the
      separate wall loop agree, and surviving the same range is exactly touching neither wall. */
  lemma BarriersAgreeWithWalls(paths: seq<seq<real>>, cols: nat, l: Levels)
    requires cols >= 2 && IsGrid(paths, cols)
    requires l.callWall.Some? && l.putWall.Some? && l.callWall.value >= l.spot
    requires l.target == l.upper == l.callWall && l.stop == l.lower == l.putWall
    ensures var r := Score(paths, cols, l);
      && r.targetFirst == r.callWallFirst
      && r.stopFirst == r.putWallFirst
      && r.neither == r.neitherWall == r.rangeSurvive
      && RangeMask(paths, l.lower.value, l.upper.value)
           == Neither2(TouchMask(AllCallHits(paths, l.callWall)), TouchMask(AllPutHits(paths, l.putWall)))
  {
    hide Frequency, EventUpTo, TargetHits, StopHits, Survives, AnyTrue;
    assert AllTargetHits(paths, true, l.target.value) == AllCallHits(paths, l.callWall);
    assert AllStopHits(paths, true, l.stop.value) == AllPutHits(paths, l.putWall);
    forall p | 0 <= p < |paths| {
      SurvivalIsUntouched(StepHighs(paths[p]), StepLows(paths[p]), l.putWall.value, l.callWall.value);
    }
    assert RangeMask(paths, l.lower.value, l.upper.value)
        == EventMask(AllCallHits(paths, l.callWall), AllPutHits(paths, l.putWall), cols - 1, Neither);
  }
}
