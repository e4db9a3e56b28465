/** Which of two barriers a bar path reaches first
    (src/spy_der/evaluation/labels.py, first_passage and range_survival). */
module FirstPassage {
  import opened Options
  import opened RealSeqs

  datatype Event = TargetFirst | StopFirst | Neither | Ambiguous

  datatype Passage = Passage(firstEvent: Event, conservative: Event, ambiguousSameBar: int,
                             timeToFirstEvent: Option<real>)

  /** What one bar decides. */
  function EventAt(target: bool, stop: bool): Event {
    if target && stop then Ambiguous else if target then TargetFirst else if stop then StopFirst else Neither
  }

  /** The event of the first bar among the first n that hits either barrier. */
  function EventUpTo(targets: seq<bool>, stops: seq<bool>, n: nat): Event
    requires n <= |targets| && n <= |stops|
  {
    if n == 0 then Neither
    else
      var before := EventUpTo(targets, stops, n - 1);
      if before != Neither then before else EventAt(targets[n - 1], stops[n - 1])
  }

  /** Same-bar ambiguity resolves to the stop. */
  function Conservative(e: Event): Event { if e == Ambiguous then StopFirst else e }

  ghost predicate FirstHit(targets: seq<bool>, stops: seq<bool>, i: nat) {
    && i < |targets| && i < |stops| && (targets[i] || stops[i])
    && forall j :: 0 <= j < i ==> !targets[j] && !stops[j]
  }

  lemma {:induction false} NoHitNoEvent(targets: seq<bool>, stops: seq<bool>, n: nat)
    requires n <= |targets| && n <= |stops|
    ensures EventUpTo(targets, stops, n) == Neither <==> forall i :: 0 <= i < n ==> !targets[i] && !stops[i]
  {
    if n > 0 { NoHitNoEvent(targets, stops, n - 1); }
  }

  /** The event is decided at the first hit and stays decided. */
  lemma {:induction false} EventOfFirstHit(targets: seq<bool>, stops: seq<bool>, i: nat, n: nat)
    requires FirstHit(targets, stops, i) && i < n <= |targets| && n <= |stops|
    ensures EventUpTo(targets, stops, n) == EventAt(targets[i], stops[i]) != Neither
  {
    if n == i + 1 {
      NoHitNoEvent(targets, stops, i);
    } else {
      EventOfFirstHit(targets, stops, i, n - 1);
    }
  }

  predicate HitsTarget(up: bool, hi: real, lo: real, target: real) { if up then hi >= target else lo <= target }

  predicate HitsStop(up: bool, hi: real, lo: real, stop: real) { if up then lo <= stop else hi >= stop }

  function TargetHits(up: bool, highs: seq<real>, lows: seq<real>, target: real): (r: seq<bool>)
    requires |highs| == |lows|
    ensures |r| == |highs|
  {
    seq(|highs|, i requires 0 <= i < |highs| => HitsTarget(up, highs[i], lows[i], target))
  }

  function StopHits(up: bool, highs: seq<real>, lows: seq<real>, stop: real): (r: seq<bool>)
    requires |highs| == |lows|
    ensures |r| == |highs|
  {
    seq(|highs|, i requires 0 <= i < |highs| => HitsStop(up, highs[i], lows[i], stop))
  }

  function PassageEvent(up: bool, highs: seq<real>, lows: seq<real>, target: real, stop: real): Event
    requires |highs| == |lows|
  {
    EventUpTo(TargetHits(up, highs, lows, target), StopHits(up, highs, lows, stop), |highs|)
  }

  /** The bars all three series have: zipping stops at the shortest. */
  function CommonLength(a: nat, b: nat): nat { if a < b then a else b }

  method ScanFirstPassage(highs: seq<real>, lows: seq<real>, minutes: seq<real>, target: real, stop: real, up: bool)
    returns (r: Passage)
    ensures var n := CommonLength(CommonLength(|highs|, |lows|), |minutes|);
      var targets, stops := TargetHits(up, highs[..n], lows[..n], target), StopHits(up, highs[..n], lows[..n], stop);
      && r.firstEvent == PassageEvent(up, highs[..n], lows[..n], target, stop)
      && r.conservative == Conservative(r.firstEvent)
      && r.ambiguousSameBar == (if r.firstEvent == Ambiguous then 1 else 0)
      && (r.timeToFirstEvent.None? <==> r.firstEvent == Neither)
      && (r.timeToFirstEvent.Some? ==>
          exists i: nat :: i < n && FirstHit(targets, stops, i) && r.timeToFirstEvent.value == minutes[i])
  {
    var n := CommonLength(CommonLength(|highs|, |lows|), |minutes|);
    ghost var targets, stops :=
        TargetHits(up, highs[..n], lows[..n], target), StopHits(up, highs[..n], lows[..n], stop);
    for i := 0 to n
      invariant forall j :: 0 <= j < i ==> !targets[j] && !stops[j]
    {
      var hitTarget := if up then highs[i] >= target else lows[i] <= target;
      var hitStop := if up then lows[i] <= stop else highs[i] >= stop;
      if hitTarget || hitStop {
        assert FirstHit(targets, stops, i);
        EventOfFirstHit(targets, stops, i, n);
      }
      if hitTarget && hitStop {
        return Passage(Ambiguous, StopFirst, 1, Some(minutes[i]));
      }
      if hitTarget {
        return Passage(TargetFirst, TargetFirst, 0, Some(minutes[i]));
      }
      if hitStop {
        return Passage(StopFirst, StopFirst, 0, Some(minutes[i]));
      }
    }
    NoHitNoEvent(targets, stops, n);
    return Passage(Neither, Neither, 0, None);
  }

  /** Every bar stays strictly within (lower, upper). */
  predicate Survives(highs: seq<real>, lows: seq<real>, lower: real, upper: real)
    requires |highs| == |lows|
  {
    forall i :: 0 <= i < |highs| ==> lower < lows[i] && highs[i] < upper
  }

  method RangeSurvival(highs: seq<real>, lows: seq<real>, lower: real, upper: real) returns (r: int)
    ensures var n := CommonLength(|highs|, |lows|);
      r == if Survives(highs[..n], lows[..n], lower, upper) then 1 else 0
  {
    var n := CommonLength(|highs|, |lows|);
    for i := 0 to n
      invariant forall j :: 0 <= j < i ==> lower < lows[j] && highs[j] < upper
    {
      if highs[i] >= upper || lows[i] <= lower {
        return 0;
      }
    }
    return 1;
  }

  // ----- Facts shared by path scoring and session labels -----

  predicate AnyTrue(s: seq<bool>) { exists i :: 0 <= i < |s| && s[i] }

  /** With a call wall above and a put wall below, surviving the range, touching neither wall and
      reaching neither first are one and the same. */
  lemma SurvivalIsUntouched(highs: seq<real>, lows: seq<real>, putWall: real, callWall: real)
    requires |highs| == |lows|
    ensures var calls, puts := TargetHits(true, highs, lows, callWall), StopHits(true, highs, lows, putWall);
      && (Survives(highs, lows, putWall, callWall) <==> !AnyTrue(calls) && !AnyTrue(puts))
      && (Survives(highs, lows, putWall, callWall) <==> PassageEvent(true, highs, lows, callWall, putWall) == Neither)
  {
    var calls, puts := TargetHits(true, highs, lows, callWall), StopHits(true, highs, lows, putWall);
    NoHitNoEvent(calls, puts, |highs|);
    forall i | 0 <= i < |highs| ensures calls[i] == (highs[i] >= callWall) && puts[i] == (lows[i] <= putWall) {}
  }
}
