/** Terminal payoff of an option structure and the proof of its maximum loss
    (src/spy_der/candidates/payoff.py). */
module Payoff {
  import opened Options
  import opened RealSeqs

  datatype OptionType = Call | Put

  datatype LegData = LegData(kind: OptionType, strike: real, quantity: int)

  /** A leg as the contract layer admits it: positive strike, non-zero quantity. */
  type Leg = l: LegData | l.strike > 0.0 && l.quantity != 0
    witness LegData(Call, 1.0, 1)

  function Intrinsic(kind: OptionType, strike: real, spot: real): real {
    match kind
    case Call => Max(spot - strike, 0.0)
    case Put => Max(strike - spot, 0.0)
  }

  /** P&L per share at settlement: credit plus signed intrinsic value. */
  function TerminalPayoff(legs: seq<Leg>, credit: real, spot: real): real {
    if legs == [] then credit
    else
      var last := legs[|legs| - 1];
      TerminalPayoff(legs[..|legs| - 1], credit, spot) + LegPayoff(last, spot)
  }

  function LegPayoff(leg: Leg, spot: real): real {
    leg.quantity as real * Intrinsic(leg.kind, leg.strike, spot)
  }

  method ComputeTerminalPayoff(legs: seq<Leg>, credit: real, spot: real) returns (total: real)
    ensures total == TerminalPayoff(legs, credit, spot)
  {
    total := credit;
    for i := 0 to |legs|
      invariant total == TerminalPayoff(legs[..i], credit, spot)
    {
      total := total + legs[i].quantity as real * Intrinsic(legs[i].kind, legs[i].strike, spot);
      assert legs[..i + 1][..i] == legs[..i];
    }
    assert legs[..|legs|] == legs;
  }

  function NetCallQuantity(legs: seq<Leg>): int {
    if legs == [] then 0
    else
      var last := legs[|legs| - 1];
      NetCallQuantity(legs[..|legs| - 1]) + if last.kind == Call then last.quantity else 0
  }

  // ----- Piecewise linearity -----

  /** Slope of the payoff just to the right of a spot. */
  function RightSlope(legs: seq<Leg>, spot: real): int {
    if legs == [] then 0
    else
      RightSlope(legs[..|legs| - 1], spot) + LegSlope(legs[|legs| - 1], spot)
  }

  function LegSlope(leg: Leg, spot: real): int {
    match leg.kind
    case Call => if leg.strike <= spot then leg.quantity else 0
    case Put => if leg.strike <= spot then 0 else -leg.quantity
  }

  ghost predicate KinkFree(legs: seq<Leg>, a: real, b: real) {
    forall l :: l in legs ==> l.strike <= a || b <= l.strike
  }

  function Rise(slope: int, x: real): real { slope as real * x }

  /** Between two spots with no strike strictly inside, the payoff is a straight line. */
  lemma {:induction false} LinearFrom(legs: seq<Leg>, credit: real, a: real, x: real)
    requires x >= 0.0 && KinkFree(legs, a, a + x)
    ensures TerminalPayoff(legs, credit, a + x) == TerminalPayoff(legs, credit, a) + Rise(RightSlope(legs, a), x)
  {
    if legs != [] {
      hide LegPayoff, LegSlope, Rise;
      var front, last := legs[..|legs| - 1], legs[|legs| - 1];
      assert last in legs && forall l :: l in front ==> l in legs;
      LinearFrom(front, credit, a, x);
      LegLinear(last, a, x);
      RiseSum(RightSlope(front, a), LegSlope(last, a), x);
    }
  }

  lemma RiseSum(m: int, d: int, x: real)
    ensures Rise(m + d, x) == Rise(m, x) + Rise(d, x)
  {
  }

  lemma LegLinear(leg: Leg, a: real, x: real)
    requires x >= 0.0 && (leg.strike <= a || a + x <= leg.strike)
    ensures LegPayoff(leg, a + x) == LegPayoff(leg, a) + Rise(LegSlope(leg, a), x)
  {
    var q := leg.quantity as real;
    var v := Intrinsic(leg.kind, leg.strike, a);
    match leg.kind
    case Call => assert leg.strike <= a ==> q * (v + x) == q * v + q * x;
    case Put => assert a < leg.strike ==> q * (v - x) == q * v + (-q) * x;
  }

  /** Past every strike only the calls move, so the slope is the net call quantity. */
  lemma {:induction false} TailSlope(legs: seq<Leg>, spot: real)
    requires forall l :: l in legs ==> l.strike <= spot
    ensures RightSlope(legs, spot) == NetCallQuantity(legs)
  {
    if legs != [] {
      var front := legs[..|legs| - 1];
      assert forall l :: l in front ==> l in legs;
      assert legs[|legs| - 1] in legs;
      TailSlope(front, spot);
    }
  }

  /** The payoff past all strikes. */
  lemma TailLine(legs: seq<Leg>, credit: real, a: real, x: real)
    requires x >= 0.0 && forall l :: l in legs ==> l.strike <= a
    ensures TerminalPayoff(legs, credit, a + x) == TerminalPayoff(legs, credit, a) + Rise(NetCallQuantity(legs), x)
  {
    LinearFrom(legs, credit, a, x);
    TailSlope(legs, a);
  }

  /** s divides [a, b] in the ratio in which ps divides [pa, pb]. */
  ghost predicate OnChord(a: real, s: real, b: real, pa: real, ps: real, pb: real) {
    (b - a) * ps == (b - s) * pa + (s - a) * pb && Min(pa, pb) <= ps <= Max(pa, pb)
  }

  /** On a kink-free interval the payoff is the interpolation of its end values. */
  lemma Interpolates(legs: seq<Leg>, credit: real, a: real, s: real, b: real)
    requires a <= s <= b && KinkFree(legs, a, b)
    ensures OnChord(a, s, b, TerminalPayoff(legs, credit, a), TerminalPayoff(legs, credit, s),
                    TerminalPayoff(legs, credit, b))
  {
    hide TerminalPayoff, OnChord, Rise;
    LinearFrom(legs, credit, a, s - a);
    LinearFrom(legs, credit, a, b - a);
    assert a + (s - a) == s && a + (b - a) == b;
    RiseOnChord(TerminalPayoff(legs, credit, a), RightSlope(legs, a), a, s, b);
  }

  lemma RiseOnChord(pa: real, m: int, a: real, s: real, b: real)
    requires a <= s <= b
    ensures OnChord(a, s, b, pa, pa + Rise(m, s - a), pa + Rise(m, b - a))
  {
    OnLine(pa, m as real, s - a, b - s, b - a);
  }

  lemma OnLine(pa: real, m: real, x: real, y: real, z: real)
    requires 0.0 <= x && 0.0 <= y && z == x + y
    ensures var ps, pb := pa + m * x, pa + m * z;
      z * ps == y * pa + x * pb && Min(pa, pb) <= ps <= Max(pa, pb)
  {
    assert m * z == m * x + m * y;
    assert z * (m * x) == x * (m * z);
    if m >= 0.0 {
      assert 0.0 <= m * x && 0.0 <= m * y;
    } else {
      assert m * x <= 0.0 && m * y <= 0.0;
    }
  }

  // ----- Evaluation spots -----

  function LegStrikes(legs: seq<Leg>): (r: seq<real>)
    ensures |r| == |legs|
  {
    seq(|legs|, i requires 0 <= i < |legs| => legs[i].strike)
  }

  function Strikes(legs: seq<Leg>): (r: seq<real>)
    ensures StrictlyIncreasing(r)
    ensures legs != [] ==> r != []
    ensures forall l :: l in legs ==> l.strike in r
    ensures forall k :: k in r ==> k > 0.0
  {
    assert forall i :: 0 <= i < |legs| ==> LegStrikes(legs)[i] == legs[i].strike && legs[i] in legs;
    SortedSet(LegStrikes(legs))
  }

  function FarProbe(strikes: seq<real>): real {
    if strikes == [] then 1000.0
    else
      var top := strikes[|strikes| - 1];
      top + Max(top - strikes[0], 1.0) * 10.0
  }

  function Midpoints(strikes: seq<real>): (r: seq<real>)
    ensures |r| == if strikes == [] then 0 else |strikes| - 1
    ensures forall i {:trigger r[i]} :: 0 <= i < |r| ==> r[i] == (strikes[i] + strikes[i + 1]) / 2.0
  {
    if |strikes| <= 1 then []
    else Midpoints(strikes[..|strikes| - 1]) + [(strikes[|strikes| - 2] + strikes[|strikes| - 1]) / 2.0]
  }

  /** 0, the strikes, one far upside probe and the midpoints of adjacent strikes. */
  function EvaluationSpots(legs: seq<Leg>): (r: seq<real>)
    ensures StrictlyIncreasing(r)
    ensures 0.0 in r && FarProbe(Strikes(legs)) in r
    ensures forall l :: l in legs ==> l.strike in r
  {
    SpotsAround(Strikes(legs))
  }

  function SpotsAround(strikes: seq<real>): (r: seq<real>)
    ensures StrictlyIncreasing(r)
    ensures forall x :: x in r <==> x == 0.0 || x in strikes || x == FarProbe(strikes) || x in Midpoints(strikes)
  {
    SortedSet([0.0] + strikes + [FarProbe(strikes)] + Midpoints(strikes))
  }

  method BuildEvaluationSpots(legs: seq<Leg>) returns (r: seq<real>)
    ensures r == EvaluationSpots(legs)
  {
    hide SortedSet;
    var strikes := Strikes(legs);
    var spots := [0.0];
    spots := spots + strikes;
    if strikes != [] {
      var top := strikes[|strikes| - 1];
      var span := Max(top - strikes[0], 1.0);
      spots := spots + [top + span * 10.0];
    } else {
      spots := spots + [1000.0];
    }
    var mids := BuildMidpoints(strikes);
    r := SortedSet(spots + mids);
  }

  method BuildMidpoints(strikes: seq<real>) returns (mids: seq<real>)
    ensures mids == Midpoints(strikes)
  {
    mids := [];
    var i := 1;
    while i < |strikes|
      invariant 1 <= i && (strikes != [] ==> i <= |strikes|)
      invariant mids == Midpoints(if strikes == [] then [] else strikes[..i])
    {
      mids := mids + [(strikes[i - 1] + strikes[i]) / 2.0];
      assert strikes[..i + 1][..i] == strikes[..i];
      i := i + 1;
    }
    assert strikes == [] || strikes[..i] == strikes;
  }

  /** The spots run from 0 to the far probe, which lies above every strike. */
  lemma SpotsSpan(strikes: seq<real>)
    requires StrictlyIncreasing(strikes) && forall k :: k in strikes ==> k > 0.0
    ensures var spots := SpotsAround(strikes);
      && |spots| >= 2
      && spots[0] == 0.0
      && spots[|spots| - 1] == FarProbe(strikes)
      && forall k :: k in strikes ==> k < FarProbe(strikes)
  {
    hide SpotsAround;
    var spots := SpotsAround(strikes);
    var far := FarProbe(strikes);
    StrikesBelowProbe(strikes);
    hide FarProbe;
    forall x | x in spots ensures 0.0 <= x <= far {
      if x in Midpoints(strikes) {
        var i :| 0 <= i < |Midpoints(strikes)| && Midpoints(strikes)[i] == x;
        assert strikes[i] in strikes && strikes[i + 1] in strikes;
      }
    }
    assert 0.0 in spots && far in spots;
    assert spots[0] in spots && spots[|spots| - 1] in spots;
  }

  lemma StrikesBelowProbe(strikes: seq<real>)
    requires StrictlyIncreasing(strikes) && forall k :: k in strikes ==> k > 0.0
    ensures 0.0 < FarProbe(strikes)
    ensures forall k :: k in strikes ==> k < FarProbe(strikes)
  {
    forall k | k in strikes ensures k < FarProbe(strikes) {
      var j :| 0 <= j < |strikes| && strikes[j] == k;
      assert k <= strikes[|strikes| - 1];
    }
    if strikes != [] { assert strikes[0] in strikes; }
  }

  /** Halfway between two strikes of the legs with no other strike between them. */
  ghost predicate IsMidpoint(legs: seq<Leg>, x: real) {
    exists a, b :: a in legs && b in legs && NextStrike(legs, a.strike, b.strike) && x == (a.strike + b.strike) / 2.0
  }

  ghost predicate NextStrike(legs: seq<Leg>, k: real, next: real) {
    k < next && forall l :: l in legs ==> l.strike <= k || next <= l.strike
  }

  /** Ten spans of the strikes, each counted as at least 1, above the highest. */
  ghost predicate IsProbe(legs: seq<Leg>, x: real) {
    if legs == [] then x == 1000.0
    else
      exists low, top :: low in legs && top in legs && AllWithin(legs, low.strike, top.strike)
        && x == Beyond(low.strike, top.strike)
  }

  function Beyond(low: real, top: real): real { top + 10.0 * (if top - low < 1.0 then 1.0 else top - low) }

  ghost predicate AllWithin(legs: seq<Leg>, low: real, top: real) {
    forall l :: l in legs ==> low <= l.strike <= top
  }

  /** The payoff is sampled at 0, at the strikes, halfway between adjacent ones and at the probe, and nowhere else. */
  lemma EvaluationSpotsExactly(legs: seq<Leg>, x: real)
    ensures x in EvaluationSpots(legs)
       <==> x == 0.0 || (exists l :: l in legs && l.strike == x) || IsMidpoint(legs, x) || IsProbe(legs, x)
  {
    var strikes := Strikes(legs);
    StrikesOfLegs(legs);
    MidpointExactly(legs, x);
    ProbeExactly(legs, x);
    hide SpotsAround, FarProbe, Midpoints, Strikes;
  }

  lemma StrikesOfLegs(legs: seq<Leg>)
    ensures forall k :: k in Strikes(legs) <==> exists l :: l in legs && l.strike == k
  {
    forall k | k in Strikes(legs) ensures exists l :: l in legs && l.strike == k {
      var i :| 0 <= i < |legs| && LegStrikes(legs)[i] == k;
      assert legs[i] in legs;
    }
  }

  lemma NothingBetween(s: seq<real>, i: nat, k: real)
    requires StrictlyIncreasing(s) && i + 1 < |s| && k in s
    ensures s[i] < s[i + 1] && (k <= s[i] || s[i + 1] <= k)
  {
    var j :| 0 <= j < |s| && s[j] == k;
  }

  lemma NextInList(s: seq<real>, k: real, next: real) returns (i: nat)
    requires StrictlyIncreasing(s) && k in s && next in s && k < next
    requires forall x :: x in s ==> x <= k || next <= x
    ensures i + 1 < |s| && s[i] == k && s[i + 1] == next
  {
    i :| 0 <= i < |s| && s[i] == k;
    var j :| 0 <= j < |s| && s[j] == next;
    assert i < j && s[i + 1] in s;
  }

  lemma MidpointExactly(legs: seq<Leg>, x: real)
    ensures x in Midpoints(Strikes(legs)) <==> IsMidpoint(legs, x)
  {
    var strikes := Strikes(legs);
    var mids := Midpoints(strikes);
    StrikesOfLegs(legs);
    hide Midpoints, Strikes, StrictlyIncreasing;
    if x in mids {
      var i :| 0 <= i < |mids| && mids[i] == x;
      assert strikes[i] in strikes && strikes[i + 1] in strikes;
      var a :| a in legs && a.strike == strikes[i];
      var b :| b in legs && b.strike == strikes[i + 1];
      NothingBetween(strikes, i, a.strike);
      forall l | l in legs ensures l.strike <= a.strike
          || b.strike <= l.strike { NothingBetween(strikes, i, l.strike); }
      assert NextStrike(legs, a.strike, b.strike);
    }
    if IsMidpoint(legs, x) {
      var a, b :| a in legs && b in legs && NextStrike(legs, a.strike, b.strike) && x == (a.strike + b.strike) / 2.0;
      var i := NextInList(strikes, a.strike, b.strike);
      assert mids[i] == x;
    }
  }

  lemma EndsOfList(s: seq<real>, k: real)
    requires StrictlyIncreasing(s) && k in s
    ensures s[0] <= k <= s[|s| - 1] && s[0] in s && s[|s| - 1] in s
  {
    var j :| 0 <= j < |s| && s[j] == k;
  }

  lemma OneSpan(legs: seq<Leg>, a: Leg, b: Leg, c: Leg, d: Leg)
    requires a in legs && b in legs && AllWithin(legs, a.strike, b.strike)
    requires c in legs && d in legs && AllWithin(legs, c.strike, d.strike)
    ensures a.strike == c.strike && b.strike == d.strike
  {
  }

  lemma SpanOfLegs(legs: seq<Leg>) returns (low: Leg, top: Leg)
    requires legs != []
    ensures low in legs && top in legs && AllWithin(legs, low.strike, top.strike)
    ensures var strikes := Strikes(legs);
      strikes != [] && low.strike == strikes[0]
      && top.strike == strikes[|strikes| - 1]
  {
    hide Strikes, StrictlyIncreasing;
    var strikes := Strikes(legs);
    StrikesOfLegs(legs);
    EndsOfList(strikes, legs[0].strike);
    low :| low in legs && low.strike == strikes[0];
    top :| top in legs && top.strike == strikes[|strikes| - 1];
    forall l | l in legs ensures low.strike <= l.strike <= top.strike { EndsOfList(strikes, l.strike); }
  }

  lemma FarProbeBeyond(legs: seq<Leg>) returns (low: Leg, top: Leg)
    requires legs != []
    ensures low in legs && top in legs && AllWithin(legs, low.strike, top.strike)
    ensures FarProbe(Strikes(legs)) == Beyond(low.strike, top.strike)
  {
    hide Strikes, AllWithin;
    low, top := SpanOfLegs(legs);
  }

  lemma ProbeExactly(legs: seq<Leg>, x: real)
    ensures x == FarProbe(Strikes(legs)) <==> IsProbe(legs, x)
  {
    if legs == [] {
      assert LegStrikes(legs) == [];
    } else {
      hide Strikes, AllWithin, FarProbe, Beyond;
      var low, top := FarProbeBeyond(legs);
      if IsProbe(legs, x) {
        var c, d :| c in legs && d in legs && AllWithin(legs, c.strike, d.strike) && x == Beyond(c.strike, d.strike);
        OneSpan(legs, low, top, c, d);
      }
    }
  }

  /** No strike lies strictly between two adjacent spots. */
  lemma AdjacentSpotsKinkFree(legs: seq<Leg>, spots: seq<real>, i: nat)
    requires StrictlyIncreasing(spots) && i + 1 < |spots|
    requires forall l :: l in legs ==> l.strike in spots
    ensures KinkFree(legs, spots[i], spots[i + 1])
  {
    forall l | l in legs ensures l.strike <= spots[i] || spots[i + 1] <= l.strike {
      var j :| 0 <= j < |spots| && spots[j] == l.strike;
      assert j <= i || i + 1 <= j;
    }
  }

  function Payoffs(legs: seq<Leg>, credit: real, spots: seq<real>): (r: seq<real>)
    ensures |r| == |spots|
    ensures forall i :: 0 <= i < |r| ==> r[i] == TerminalPayoff(legs, credit, spots[i])
  {
    seq(|spots|, i requires 0 <= i < |spots| => TerminalPayoff(legs, credit, spots[i]))
  }

  // ----- Break-evens -----

  predicate Crosses(p0: real, p1: real) {
    (p0 > 0.0 && p1 < 0.0) || (p0 < 0.0 && p1 > 0.0)
  }

  function ZeroOfChord(s0: real, s1: real, p0: real, p1: real): real
    requires Crosses(p0, p1)
  {
    s0 + (s1 - s0) * (p0 / (p0 - p1))
  }

  /** Exact hits on the grid and the chord zeros of the intervals that change sign. */
  function BreakevenSet(spots: seq<real>, payoffs: seq<real>): set<real>
    requires |spots| == |payoffs|
  {
    GridZeros(spots, payoffs, |spots|) + ChordZeros(spots, payoffs, |spots| - 1)
  }

  function GridZeros(spots: seq<real>, payoffs: seq<real>, n: nat): set<real>
    requires n <= |spots| == |payoffs|
  {
    set i | 0 <= i < n && payoffs[i] == 0.0 :: spots[i]
  }

  function ChordZeros(spots: seq<real>, payoffs: seq<real>, n: int): set<real>
    requires |spots| == |payoffs| && (n < |spots| || n <= 0)
  {
    set i | 0 <= i < n && CrossesAt(payoffs, i) :: ZeroOfChord(spots[i], spots[i + 1], payoffs[i], payoffs[i + 1])
  }

  predicate CrossesAt(payoffs: seq<real>, i: nat)
    requires i + 1 < |payoffs|
  {
    Crosses(payoffs[i], payoffs[i + 1])
  }

  method Breakevens(spots: seq<real>, payoffs: seq<real>) returns (zeros: set<real>)
    requires |spots| == |payoffs|
    ensures zeros == BreakevenSet(spots, payoffs)
  {
    zeros := {};
    for i := 0 to |spots|
      invariant zeros == GridZeros(spots, payoffs, i)
    {
      if payoffs[i] == 0.0 {
        zeros := zeros + {spots[i]};
      }
    }
    var i := 0;
    while i < |spots| - 1
      invariant 0 <= i && (i < |spots| || i == 0)
      invariant zeros == GridZeros(spots, payoffs, |spots|) + ChordZeros(spots, payoffs, i)
    {
      var p0, p1 := payoffs[i], payoffs[i + 1];
      if !(p0 == 0.0 || p1 == 0.0) && CrossesAt(payoffs, i) {
        zeros := zeros + {ZeroOfChord(spots[i], spots[i + 1], p0, p1)};
      }
      i := i + 1;
    }
    assert i == (if spots == [] then 0 else |spots| - 1);
    assert ChordZeros(spots, payoffs, i) == ChordZeros(spots, payoffs, |spots| - 1);
  }

  // ----- The proof object -----

  /** The payoff hash digests exactly these three values; it is kept as what it digests. */
  datatype PayoffHash = PayoffHash(credit: real, spots: seq<real>, payoffs: seq<real>)

  datatype PayoffProof = PayoffProof(
    maximumLoss: real,
    maximumProfit: Option<real>,
    breakevens: set<real>,
    capitalRequired: real,
    evaluationSpots: seq<real>,
    payoffs: seq<real>,
    payoffHash: Option<PayoffHash>,
    unbounded: bool,
    reasons: seq<string>)

  function Unbounded(spots: seq<real>, payoffs: seq<real>, reason: string): PayoffProof {
    PayoffProof(0.0, None, {}, 0.0, spots, payoffs, None, true, [reason])
  }

  function ProveBoundedLoss(legs: seq<Leg>, credit: real): PayoffProof {
    var netCalls := NetCallQuantity(legs);
    if netCalls < 0 then Unbounded([], [], "unbounded_short_call_tail")
    else
      var spots := EvaluationSpots(legs);
      var payoffs := Payoffs(legs, credit, spots);
      var minPnl, maxPnl := MinOf(payoffs), MaxOf(payoffs);
      var sampledLoss := if minPnl < 0.0 then -minPnl else 0.0;
      var debit := if credit < 0.0 then -credit else 0.0;
      var debitFloor := sampledLoss <= 0.0 && credit <= 0.0;
      var maxLoss := if debitFloor then debit else sampledLoss;
      if maxLoss < 0.0 then Unbounded(spots, payoffs, "negative_max_loss_invariant")
      else
        PayoffProof(maxLoss,
                    if netCalls > 0 then None else Some(Max(maxPnl, 0.0)),
                    BreakevenSet(spots, payoffs),
                    Max(maxLoss, debit),
                    spots,
                    payoffs,
                    Some(PayoffHash(credit, spots, payoffs)),
                    false,
                    if debitFloor then ["debit_floor"] else [])
  }

  // ----- What the proof proves -----

  ghost predicate IsLowerBound(legs: seq<Leg>, credit: real, b: real) {
    forall s :: s >= 0.0 ==> b <= TerminalPayoff(legs, credit, s)
  }

  ghost predicate IsUpperBound(legs: seq<Leg>, credit: real, b: real) {
    forall s :: s >= 0.0 ==> TerminalPayoff(legs, credit, s) <= b
  }

  ghost predicate Attained(legs: seq<Leg>, credit: real, b: real) {
    exists s :: s >= 0.0 && TerminalPayoff(legs, credit, s) == b
  }

  /** Every spot up to the far probe lies between two adjacent evaluation spots. */
  lemma Located(legs: seq<Leg>, credit: real, s: real) returns (i: nat)
    requires 0.0 <= s <= FarProbe(Strikes(legs))
    ensures var spots := EvaluationSpots(legs);
      && i + 1 < |spots| && 0.0 <= spots[i] <= s <= spots[i + 1] && spots[i] < spots[i + 1]
      && KinkFree(legs, spots[i], spots[i + 1])
      && OnChord(spots[i], s, spots[i + 1], TerminalPayoff(legs, credit, spots[i]),
                 TerminalPayoff(legs, credit, s), TerminalPayoff(legs, credit, spots[i + 1]))
  {
    hide SpotsAround, FarProbe, OnChord, TerminalPayoff;
    var spots := EvaluationSpots(legs);
    SpotsSpan(Strikes(legs));
    i := Bracket(spots, s);
    AdjacentSpotsKinkFree(legs, spots, i);
    Interpolates(legs, credit, spots[i], s, spots[i + 1]);
  }

  /** Finitely many samples bound the payoff at every spot: from below when net calls are not short ... */
  lemma SampledMinimum(legs: seq<Leg>, credit: real)
    requires NetCallQuantity(legs) >= 0
    ensures IsLowerBound(legs, credit, MinOf(Payoffs(legs, credit, EvaluationSpots(legs))))
  {
    hide TerminalPayoff, FarProbe, EvaluationSpots, MinOf;
    var spots := EvaluationSpots(legs);
    var payoffs := Payoffs(legs, credit, spots);
    forall s | s >= 0.0 ensures MinOf(payoffs) <= TerminalPayoff(legs, credit, s) {
      var far := FarProbe(Strikes(legs));
      if s <= far {
        var i := Located(legs, credit, s);
        assert payoffs[i] in payoffs && payoffs[i + 1] in payoffs;
      } else {
        AtProbe(legs, credit);
        PastProbe(legs, credit, s);
        RiseSign(NetCallQuantity(legs), s - far);
      }
    }
  }

  /** ... and from above when they are flat. */
  lemma SampledMaximum(legs: seq<Leg>, credit: real)
    requires NetCallQuantity(legs) == 0
    ensures IsUpperBound(legs, credit, MaxOf(Payoffs(legs, credit, EvaluationSpots(legs))))
  {
    hide TerminalPayoff, FarProbe, EvaluationSpots, MaxOf;
    var spots := EvaluationSpots(legs);
    var payoffs := Payoffs(legs, credit, spots);
    forall s | s >= 0.0 ensures TerminalPayoff(legs, credit, s) <= MaxOf(payoffs) {
      var far := FarProbe(Strikes(legs));
      if s <= far {
        var i := Located(legs, credit, s);
        assert payoffs[i] in payoffs && payoffs[i + 1] in payoffs;
      } else {
        AtProbe(legs, credit);
        PastProbe(legs, credit, s);
        RiseSign(NetCallQuantity(legs), s - far);
      }
    }
  }

  lemma AtProbe(legs: seq<Leg>, credit: real)
    ensures TerminalPayoff(legs, credit, FarProbe(Strikes(legs))) in Payoffs(legs, credit, EvaluationSpots(legs))
  {
    hide TerminalPayoff, FarProbe, EvaluationSpots;
    var spots := EvaluationSpots(legs);
    var j :| 0 <= j < |spots| && spots[j] == FarProbe(Strikes(legs));
    assert Payoffs(legs, credit, spots)[j] in Payoffs(legs, credit, spots);
  }

  lemma PastProbe(legs: seq<Leg>, credit: real, s: real)
    requires s >= FarProbe(Strikes(legs))
    ensures FarProbe(Strikes(legs)) > 0.0
    ensures var far := FarProbe(Strikes(legs));
      TerminalPayoff(legs, credit, s) == TerminalPayoff(legs, credit, far) + Rise(NetCallQuantity(legs), s - far)
  {
    hide TerminalPayoff, FarProbe;
    var far := FarProbe(Strikes(legs));
    StrikesBelowProbe(Strikes(legs));
    TailLine(legs, credit, far, s - far);
    assert far + (s - far) == s;
  }

  lemma RiseSign(m: int, x: real)
    requires x >= 0.0
    ensures m >= 0 ==> Rise(m, x) >= 0.0
    ensures m == 0 ==> Rise(m, x) == 0.0
    ensures m < 0 ==> Rise(m, x) <= -x
    ensures m > 0 ==> Rise(m, x) >= x
  {
    ProductSign((m + 1) as real, x);
    ProductSign((m - 1) as real, x);
    RiseSum(m, 1, x);
    RiseSum(m, -1, x);
  }

  /** A non-zero slope in the tail runs off to infinity on that side. */
  lemma TailEscapes(legs: seq<Leg>, credit: real, b: real)
    ensures NetCallQuantity(legs) < 0 ==> !IsLowerBound(legs, credit, b)
    ensures NetCallQuantity(legs) > 0 ==> !IsUpperBound(legs, credit, b)
  {
    hide TerminalPayoff, FarProbe, Rise;
    var far := FarProbe(Strikes(legs));
    var p := TerminalPayoff(legs, credit, far);
    var x := Abs(p - b) + 1.0;
    PastProbe(legs, credit, far + x);
    assert far + x - far == x;
    RiseSign(NetCallQuantity(legs), x);
    assert TerminalPayoff(legs, credit, far + x) == p + Rise(NetCallQuantity(legs), x);
  }

  /** The proof is refused exactly when no finite lower bound exists. */
  lemma UnboundedExactly(legs: seq<Leg>, credit: real)
    ensures ProveBoundedLoss(legs, credit).unbounded <==> !exists b :: IsLowerBound(legs, credit, b)
  {
    hide TerminalPayoff, EvaluationSpots, IsLowerBound, NetCallQuantity;
    if NetCallQuantity(legs) < 0 {
      forall b ensures !IsLowerBound(legs, credit, b) { TailEscapes(legs, credit, b); }
    } else {
      SampledMinimum(legs, credit);
    }
  }

  /** The maximum loss bounds every spot, and is reached as soon as any spot loses money. */
  lemma MaximumLossIsExact(legs: seq<Leg>, credit: real)
    requires NetCallQuantity(legs) >= 0
    ensures var proof := ProveBoundedLoss(legs, credit);
      && !proof.unbounded
      && proof.maximumLoss >= 0.0
      && IsLowerBound(legs, credit, -proof.maximumLoss)
      && (!IsLowerBound(legs, credit, 0.0) ==> Attained(legs, credit, -proof.maximumLoss))
      && (IsLowerBound(legs, credit, 0.0) ==> proof.maximumLoss == Max(-credit, 0.0))
  {
    hide TerminalPayoff, EvaluationSpots, MinOf, MaxOf;
    var spots := EvaluationSpots(legs);
    var payoffs := Payoffs(legs, credit, spots);
    SampledMinimum(legs, credit);
    var j :| 0 <= j < |payoffs| && payoffs[j] == MinOf(payoffs);
    SpotNonNegative(legs, j);
    assert TerminalPayoff(legs, credit, spots[j]) == MinOf(payoffs);
    if MinOf(payoffs) >= 0.0 {
      assert IsLowerBound(legs, credit, 0.0);
    }
  }

  /** The capital required is the least non-negative amount that covers the loss at every spot and the
      debit paid. */
  lemma CapitalRequiredIsExact(legs: seq<Leg>, credit: real)
    requires NetCallQuantity(legs) >= 0
    ensures var capital := ProveBoundedLoss(legs, credit).capitalRequired;
      && capital >= 0.0 && CoversLosses(legs, credit, capital)
      && forall x :: x >= 0.0 && CoversLosses(legs, credit, x) ==> x >= capital
  {
    MaximumLossIsExact(legs, credit);
    CapitalIsGreater(legs, credit);
    hide TerminalPayoff, EvaluationSpots, MinOf, MaxOf, ProveBoundedLoss;
    var proof := ProveBoundedLoss(legs, credit);
    LowerBoundsFollow(legs, credit, -proof.maximumLoss, -proof.capitalRequired);
    if IsLowerBound(legs, credit, 0.0) {
    } else {
      assert Attained(legs, credit, -proof.maximumLoss);
      hide IsLowerBound;
      forall x | CoversLosses(legs, credit, x) ensures x >= proof.maximumLoss {
        NoLowerThanAttained(legs, credit, -proof.maximumLoss, -x);
      }
    }
  }

  lemma LowerBoundsFollow(legs: seq<Leg>, credit: real, b: real, lower: real)
    requires IsLowerBound(legs, credit, b) && lower <= b
    ensures IsLowerBound(legs, credit, lower)
  {
    hide TerminalPayoff;
  }

  lemma NoLowerThanAttained(legs: seq<Leg>, credit: real, b: real, lower: real)
    requires Attained(legs, credit, b) && IsLowerBound(legs, credit, lower)
    ensures lower <= b
  {
    hide TerminalPayoff;
  }

  ghost predicate CoversLosses(legs: seq<Leg>, credit: real, amount: real) {
    IsLowerBound(legs, credit, -amount) && amount >= -credit
  }

  lemma CapitalIsGreater(legs: seq<Leg>, credit: real)
    requires NetCallQuantity(legs) >= 0
    ensures var proof := ProveBoundedLoss(legs, credit);
      proof.capitalRequired == Max(proof.maximumLoss, Max(-credit, 0.0))
  {
    hide EvaluationSpots, MinOf, MaxOf, Payoffs, BreakevenSet;
  }

  /** A refused proof reports nothing but its reason; any other records what it sampled. */
  lemma ProofRecords(legs: seq<Leg>, credit: real)
    ensures var proof, spots := ProveBoundedLoss(legs, credit), EvaluationSpots(legs);
      if NetCallQuantity(legs) < 0 then
        && proof.unbounded && proof.reasons == ["unbounded_short_call_tail"]
        && proof.maximumLoss == proof.capitalRequired == 0.0 && proof.maximumProfit == None && proof.payoffHash == None
        && proof.evaluationSpots == proof.payoffs == [] && proof.breakevens == {}
      else
        && proof.evaluationSpots == spots && |proof.payoffs| == |spots|
        && (forall i :: 0 <= i < |spots| ==> proof.payoffs[i] == TerminalPayoff(legs, credit, spots[i]))
        && proof.payoffHash == Some(PayoffHash(credit, spots, proof.payoffs))
        && proof.breakevens == ReportedBreakevens(legs, credit)
  {
    hide EvaluationSpots, TerminalPayoff, MinOf, MaxOf, BreakevenSet;
  }

  /** The debit floor is reported exactly when no spot loses money and no credit came in; nothing else is. */
  lemma DebitFloorExactly(legs: seq<Leg>, credit: real)
    requires NetCallQuantity(legs) >= 0
    ensures ProveBoundedLoss(legs, credit).reasons
         == if IsLowerBound(legs, credit, 0.0) && credit <= 0.0 then ["debit_floor"] else []
  {
    hide TerminalPayoff, EvaluationSpots, MinOf, MaxOf;
    var spots := EvaluationSpots(legs);
    var payoffs := Payoffs(legs, credit, spots);
    SampledMinimum(legs, credit);
    var j :| 0 <= j < |payoffs| && payoffs[j] == MinOf(payoffs);
    SpotNonNegative(legs, j);
    assert TerminalPayoff(legs, credit, spots[j]) == MinOf(payoffs);
  }

  lemma SpotNonNegative(legs: seq<Leg>, j: nat)
    requires j < |EvaluationSpots(legs)|
    ensures EvaluationSpots(legs)[j] >= 0.0
  {
    SpotsSpan(Strikes(legs));
  }

  /** Among bounded proofs the maximum profit is absent exactly when there is no upper bound;
      otherwise it bounds every spot and is reached as soon as any spot makes money. */
  lemma MaximumProfitIsExact(legs: seq<Leg>, credit: real)
    requires NetCallQuantity(legs) >= 0
    ensures var proof := ProveBoundedLoss(legs, credit);
      && (proof.maximumProfit.None? <==> !exists b :: IsUpperBound(legs, credit, b))
      && (proof.maximumProfit.Some? ==>
            && proof.maximumProfit.value >= 0.0
            && IsUpperBound(legs, credit, proof.maximumProfit.value)
            && (!IsUpperBound(legs, credit, 0.0) ==> Attained(legs, credit, proof.maximumProfit.value)))
  {
    hide TerminalPayoff, EvaluationSpots, MinOf, MaxOf;
    if NetCallQuantity(legs) > 0 {
      forall b ensures !IsUpperBound(legs, credit, b) { TailEscapes(legs, credit, b); }
    } else {
      var spots := EvaluationSpots(legs);
      var payoffs := Payoffs(legs, credit, spots);
      SampledMaximum(legs, credit);
      var j :| 0 <= j < |payoffs| && payoffs[j] == MaxOf(payoffs);
      SpotNonNegative(legs, j);
      assert TerminalPayoff(legs, credit, spots[j]) == MaxOf(payoffs);
      if MaxOf(payoffs) <= 0.0 {
        assert IsUpperBound(legs, credit, 0.0);
      }
      assert IsUpperBound(legs, credit, Max(MaxOf(payoffs), 0.0));
    }
  }

  // ----- Break-evens -----

  /** A chord that changes sign is zero exactly once, where the interpolation puts it. */
  lemma ChordZero(a: real, z: real, b: real, pa: real, pz: real, pb: real)
    requires a < b && a <= z <= b && OnChord(a, z, b, pa, pz, pb) && Crosses(pa, pb)
    ensures pz == 0.0 <==> z == ZeroOfChord(a, b, pa, pb)
  {
    var f := pa / (pa - pb);
    assert f * (pa - pb) == pa;
    var w, d := b - a, z - a;
    assert w * pz == w * pa - d * (pa - pb);
    assert w * f * (pa - pb) == w * pa;
    assert w * pz == (w * f - d) * (pa - pb);
    if pz == 0.0 {
      assert (w * f - d) * (pa - pb) == 0.0;
    }
    if d == w * f {
      assert w * pz == 0.0;
    }
  }

  lemma ZeroOfChordInside(a: real, b: real, pa: real, pb: real)
    requires a < b && Crosses(pa, pb)
    ensures a < ZeroOfChord(a, b, pa, pb) < b
  {
    var f := pa / (pa - pb);
    assert f * (pa - pb) == pa;
    assert 0.0 < f < 1.0;
    assert 0.0 < (b - a) * f && 0.0 < (b - a) * (1.0 - f);
  }

  function ReportedBreakevens(legs: seq<Leg>, credit: real): set<real> {
    var spots := EvaluationSpots(legs);
    BreakevenSet(spots, Payoffs(legs, credit, spots))
  }

  /** Every reported value is a spot up to the far probe at which the payoff is exactly zero. */
  lemma BreakevensSound(legs: seq<Leg>, credit: real, z: real)
    requires z in ReportedBreakevens(legs, credit)
    ensures 0.0 <= z <= FarProbe(Strikes(legs)) && TerminalPayoff(legs, credit, z) == 0.0
  {
    hide TerminalPayoff, FarProbe, EvaluationSpots, ZeroOfChord, OnChord;
    var spots := EvaluationSpots(legs);
    var payoffs := Payoffs(legs, credit, spots);
    SpotsWithinProbe(legs);
    if z in GridZeros(spots, payoffs, |spots|) {
      var i :| 0 <= i < |spots| && payoffs[i] == 0.0 && z == spots[i];
      assert spots[i] in spots;
    } else {
      var i :| 0 <= i < |spots| - 1 && CrossesAt(payoffs, i)
        && z == ZeroOfChord(spots[i], spots[i + 1], payoffs[i], payoffs[i + 1]);
      assert spots[i] in spots && spots[i + 1] in spots;
      ChordZeroSound(legs, credit, i);
    }
  }

  lemma ChordZeroSound(legs: seq<Leg>, credit: real, i: nat)
    requires i + 1 < |EvaluationSpots(legs)|
    requires var spots := EvaluationSpots(legs);
      Crosses(TerminalPayoff(legs, credit, spots[i]), TerminalPayoff(legs, credit, spots[i + 1]))
    ensures var spots := EvaluationSpots(legs);
      var z := ZeroOfChord(spots[i], spots[i + 1], TerminalPayoff(legs, credit, spots[i]),
                           TerminalPayoff(legs, credit, spots[i + 1]));
      spots[i] < z < spots[i + 1] && TerminalPayoff(legs, credit, z) == 0.0
  {
    hide TerminalPayoff, EvaluationSpots, ZeroOfChord, OnChord, Crosses;
    var spots := EvaluationSpots(legs);
    var a, b := spots[i], spots[i + 1];
    var pa, pb := TerminalPayoff(legs, credit, a), TerminalPayoff(legs, credit, b);
    var z := ZeroOfChord(a, b, pa, pb);
    ZeroOfChordInside(a, b, pa, pb);
    AdjacentSpotsKinkFree(legs, spots, i);
    Interpolates(legs, credit, a, z, b);
    ChordZero(a, z, b, pa, TerminalPayoff(legs, credit, z), pb);
  }

  lemma SpotsWithinProbe(legs: seq<Leg>)
    ensures forall s :: s in EvaluationSpots(legs) ==> 0.0 <= s <= FarProbe(Strikes(legs))
  {
    hide SpotsAround;
    SpotsSpan(Strikes(legs));
  }

  /** z lies inside a grid interval on which the payoff is zero throughout, with both ends reported. */
  ghost predicate InFlatZeroSegment(legs: seq<Leg>, credit: real, z: real) {
    var spots := EvaluationSpots(legs);
    exists i {:trigger spots[i]} :: 0 <= i < |spots| - 1 && spots[i] < z < spots[i + 1]
      && spots[i] in ReportedBreakevens(legs, credit) && spots[i + 1] in ReportedBreakevens(legs, credit)
      && forall s :: spots[i] <= s <= spots[i + 1] ==> TerminalPayoff(legs, credit, s) == 0.0
  }

  /** Every zero up to the far probe is reported or lies in a flat zero segment whose ends are. */
  lemma BreakevensComplete(legs: seq<Leg>, credit: real, z: real)
    requires 0.0 <= z <= FarProbe(Strikes(legs)) && TerminalPayoff(legs, credit, z) == 0.0
    ensures z in ReportedBreakevens(legs, credit) || InFlatZeroSegment(legs, credit, z)
  {
    hide TerminalPayoff, FarProbe, EvaluationSpots, ZeroOfChord, OnChord;
    var spots := EvaluationSpots(legs);
    var payoffs := Payoffs(legs, credit, spots);
    var i := Located(legs, credit, z);
    var a, b, pa, pb := spots[i], spots[i + 1], payoffs[i], payoffs[i + 1];
    if Crosses(pa, pb) {
      ChordZero(a, z, b, pa, 0.0, pb);
      assert CrossesAt(payoffs, i);
    } else if z == a || z == b {
      assert z in GridZeros(spots, payoffs, |spots|);
    } else {
      InteriorZero(a, z, b, pa, pb);
      FlatBetweenZeros(legs, credit, i);
      assert a in GridZeros(spots, payoffs, |spots|) && b in GridZeros(spots, payoffs, |spots|);
    }
  }

  lemma FlatBetweenZeros(legs: seq<Leg>, credit: real, i: nat)
    requires var spots := EvaluationSpots(legs);
      && i + 1 < |spots| && TerminalPayoff(legs, credit, spots[i]) == 0.0 == TerminalPayoff(legs, credit, spots[i + 1])
    ensures var spots := EvaluationSpots(legs);
      forall s :: spots[i] <= s <= spots[i + 1] ==> TerminalPayoff(legs, credit, s) == 0.0
  {
    hide TerminalPayoff, OnChord, EvaluationSpots;
    var spots := EvaluationSpots(legs);
    AdjacentSpotsKinkFree(legs, spots, i);
    forall s | spots[i] <= s <= spots[i + 1] ensures TerminalPayoff(legs, credit, s) == 0.0 {
      Interpolates(legs, credit, spots[i], s, spots[i + 1]);
      BetweenZeros(spots[i], s, spots[i + 1], TerminalPayoff(legs, credit, s));
    }
  }

  /** A chord with a zero inside and no sign change is zero at both ends. */
  lemma InteriorZero(a: real, z: real, b: real, pa: real, pb: real)
    requires a < z < b && OnChord(a, z, b, pa, 0.0, pb) && !Crosses(pa, pb)
    ensures pa == 0.0 && pb == 0.0
  {
    var u, v := b - z, z - a;
    assert u * pa + v * pb == 0.0;
    ProductSign(u, pa);
    ProductSign(v, pb);
  }

  lemma BetweenZeros(a: real, s: real, b: real, ps: real)
    requires OnChord(a, s, b, 0.0, ps, 0.0)
    ensures ps == 0.0
  {
  }

  /** The probe is finite, so completeness stops there: exactly when does a zero lie beyond it? */
  lemma BreakevenPastProbe(legs: seq<Leg>, credit: real)
    requires NetCallQuantity(legs) >= 0
    ensures var far := FarProbe(Strikes(legs));
      (exists z :: z > far && TerminalPayoff(legs, credit, z) == 0.0) <==>
      if NetCallQuantity(legs) > 0 then TerminalPayoff(legs, credit, far) < 0.0
      else TerminalPayoff(legs, credit, far) == 0.0
  {
    hide TerminalPayoff, FarProbe, Rise;
    var far, net := FarProbe(Strikes(legs)), NetCallQuantity(legs);
    var p := TerminalPayoff(legs, credit, far);
    forall z | z > far ensures TerminalPayoff(legs, credit, z) == p + Rise(net, z - far)
        && Rise(net, z - far) >= (if net > 0 then z - far else 0.0) {
      PastProbe(legs, credit, z);
      RiseSign(net, z - far);
    }
    if net > 0 && p < 0.0 {
      var x := RiseTo(net, -p);
      assert far + x > far && (far + x) - far == x;
      assert TerminalPayoff(legs, credit, far + x) == 0.0;
    } else if net == 0 && p == 0.0 {
      RiseSign(net, 1.0);
      assert (far + 1.0) - far == 1.0;
      assert TerminalPayoff(legs, credit, far + 1.0) == 0.0;
    } else if net == 0 {
      forall z | z > far ensures TerminalPayoff(legs, credit, z) != 0.0 {
        RiseSign(net, z - far);
      }
    }
  }

  ghost predicate Found(legs: seq<Leg>, credit: real, z: real) {
    z in ReportedBreakevens(legs, credit) || InFlatZeroSegment(legs, credit, z)
  }

  /** So every zero at all is found exactly when the payoff at the probe is past its last zero. */
  lemma BreakevensAllFoundExactly(legs: seq<Leg>, credit: real)
    requires NetCallQuantity(legs) >= 0
    ensures var p := TerminalPayoff(legs, credit, FarProbe(Strikes(legs)));
      (forall z :: z >= 0.0 && TerminalPayoff(legs, credit, z) == 0.0 ==> Found(legs, credit, z)) <==>
      if NetCallQuantity(legs) > 0 then p >= 0.0 else p != 0.0
  {
    hide TerminalPayoff, FarProbe, ReportedBreakevens, InFlatZeroSegment, NetCallQuantity;
    var far := FarProbe(Strikes(legs));
    SpotsWithinProbe(legs);
    assert far in EvaluationSpots(legs) && far >= 0.0;
    BreakevenPastProbe(legs, credit);
    forall z | z >= 0.0 && TerminalPayoff(legs, credit, z) == 0.0 ensures Found(legs, credit, z) <==> z <= far {
      if z <= far {
        BreakevensComplete(legs, credit, z);
      } else {
        NothingFoundPastProbe(legs, credit, z);
      }
    }
    if z :| z > far && TerminalPayoff(legs, credit, z) == 0.0 {
      assert !Found(legs, credit, z);
    }
  }

  lemma NothingFoundPastProbe(legs: seq<Leg>, credit: real, z: real)
    requires z > FarProbe(Strikes(legs))
    ensures !Found(legs, credit, z)
  {
    hide TerminalPayoff, FarProbe, ReportedBreakevens, EvaluationSpots;
    SpotsWithinProbe(legs);
    var spots := EvaluationSpots(legs);
    assert forall i :: 0 <= i < |spots| ==> spots[i] in spots;
    if z in ReportedBreakevens(legs, credit) { BreakevensSound(legs, credit, z); }
  }

  /** One call at 100 bought for 50 breaks even at 150, but the probe stands at 110 and nothing is reported. */
  lemma ProbeMissesBreakeven()
    ensures var legs := [LegData(Call, 100.0, 1)];
      && FarProbe(Strikes(legs)) == 110.0
      && TerminalPayoff(legs, -50.0, 150.0) == 0.0
      && ReportedBreakevens(legs, -50.0) == {}
  {
    hide ReportedBreakevens;
    var legs := [LegData(Call, 100.0, 1)];
    assert Strikes(legs) == [100.0];
    forall s ensures TerminalPayoff(legs, -50.0, s) == -50.0 + Max(s - 100.0, 0.0) { OneCall(s); }
    forall z | z in ReportedBreakevens(legs, -50.0) ensures false { BreakevensSound(legs, -50.0, z); }
    NoReal(ReportedBreakevens(legs, -50.0));
  }

  lemma OneCall(s: real)
    ensures TerminalPayoff([LegData(Call, 100.0, 1)], -50.0, s) == -50.0 + Max(s - 100.0, 0.0)
  {
    var legs := [LegData(Call, 100.0, 1)];
    assert legs[..0] == [];
    assert TerminalPayoff(legs, -50.0, s) == TerminalPayoff(legs[..0], -50.0, s) + LegPayoff(legs[0], s);
  }

  lemma RiseTo(m: int, y: real) returns (x: real)
    requires m > 0 && y > 0.0
    ensures x > 0.0 && Rise(m, x) == y
  {
    x := y / m as real;
    assert m as real * x == y;
  }

  // ----- The payoff hash -----

  lemma HashDigests(legs: seq<Leg>, credit: real)
    requires ProveBoundedLoss(legs, credit).payoffHash.Some?
    ensures var spots := EvaluationSpots(legs);
      ProveBoundedLoss(legs, credit).payoffHash == Some(PayoffHash(credit, spots, Payoffs(legs, credit, spots)))
  {
    hide TerminalPayoff, EvaluationSpots, MinOf, MaxOf, BreakevenSet, NetCallQuantity;
  }

  /** Equal payoff hashes mean equal entry credit and the same payoff at every spot, tail included:
      the hash digests the credit, so no two structures of different cost ever share one. */
  lemma HashDeterminesPayoff(legs: seq<Leg>, credit: real, legs': seq<Leg>, credit': real)
    requires ProveBoundedLoss(legs, credit).payoffHash.Some?
    requires ProveBoundedLoss(legs, credit).payoffHash == ProveBoundedLoss(legs', credit').payoffHash
    ensures credit == credit'
    ensures forall s :: s >= 0.0 ==> TerminalPayoff(legs, credit, s) == TerminalPayoff(legs', credit', s)
  {
    hide ProveBoundedLoss, TerminalPayoff, FarProbe, EvaluationSpots, Rise, NetCallQuantity;
    HashDigests(legs, credit);
    HashDigests(legs', credit');
    var spots := EvaluationSpots(legs);
    assert spots == EvaluationSpots(legs');
    assert Payoffs(legs, credit, spots) == Payoffs(legs', credit', spots);
    SpotsSpanLegs(legs);
    SpotsSpanLegs(legs');
    var far := FarProbe(Strikes(legs));
    forall s | s >= 0.0 ensures TerminalPayoff(legs, credit, s) == TerminalPayoff(legs', credit', s) {
      if s <= far {
        SamePayoffUpToProbe(legs, credit, legs', credit', s);
      } else {
        SameTailSlope(legs, credit, legs', credit');
        PastProbe(legs, credit, s);
        PastProbe(legs', credit', s);
        SamePayoffUpToProbe(legs, credit, legs', credit', far);
      }
    }
  }

  lemma SpotsSpanLegs(legs: seq<Leg>)
    ensures var spots := EvaluationSpots(legs);
      && |spots| >= 2
      && spots[|spots| - 1] == FarProbe(Strikes(legs)) > 0.0
      && forall l :: l in legs ==> l.strike <= spots[|spots| - 2]
  {
    hide SpotsAround, FarProbe;
    var spots := EvaluationSpots(legs);
    SpotsSpan(Strikes(legs));
    forall l | l in legs ensures l.strike <= spots[|spots| - 2] {
      var j :| 0 <= j < |spots| && spots[j] == l.strike;
      assert l.strike in Strikes(legs);
    }
  }

  lemma SamePayoffUpToProbe(legs: seq<Leg>, credit: real, legs': seq<Leg>, credit': real, s: real)
    requires EvaluationSpots(legs) == EvaluationSpots(legs')
    requires Payoffs(legs, credit, EvaluationSpots(legs)) == Payoffs(legs', credit', EvaluationSpots(legs))
    requires 0.0 <= s <= FarProbe(Strikes(legs))
    ensures TerminalPayoff(legs, credit, s) == TerminalPayoff(legs', credit', s)
  {
    hide TerminalPayoff, FarProbe, EvaluationSpots, OnChord;
    var spots := EvaluationSpots(legs);
    var i := Located(legs, credit, s);
    var p, p' := Payoffs(legs, credit, spots), Payoffs(legs', credit', spots);
    assert p[i] == p'[i] && p[i + 1] == p'[i + 1];
    AdjacentSpotsKinkFree(legs', spots, i);
    Interpolates(legs', credit', spots[i], s, spots[i + 1]);
    ChordUnique(spots[i], s, spots[i + 1], p[i], TerminalPayoff(legs, credit, s), TerminalPayoff(legs', credit', s),
                p[i + 1]);
  }

  lemma SameProduct(w: real, u: real, v: real, pa: real, p: real, p': real, pb: real)
    requires w != 0.0 && w * p == u * pa + v * pb && w * p' == u * pa + v * pb
    ensures p == p'
  {
    Cancel(w, p, p');
  }

  lemma ChordUnique(a: real, s: real, b: real, pa: real, p: real, p': real, pb: real)
    requires a < b && OnChord(a, s, b, pa, p, pb) && OnChord(a, s, b, pa, p', pb)
    ensures p == p'
  {
    SameProduct(b - a, b - s, s - a, pa, p, p', pb);
  }

  lemma SameTailSlope(legs: seq<Leg>, credit: real, legs': seq<Leg>, credit': real)
    requires EvaluationSpots(legs) == EvaluationSpots(legs')
    requires Payoffs(legs, credit, EvaluationSpots(legs)) == Payoffs(legs', credit', EvaluationSpots(legs))
    ensures NetCallQuantity(legs) == NetCallQuantity(legs')
  {
    hide TerminalPayoff, FarProbe, SpotsAround, Rise, Strikes, NetCallQuantity;
    var spots := EvaluationSpots(legs);
    SpotsSpanLegs(legs);
    SpotsSpanLegs(legs');
    var n := |spots| - 2;
    var a, d := spots[n], spots[n + 1] - spots[n];
    var p, p' := Payoffs(legs, credit, spots), Payoffs(legs', credit', spots);
    assert p[n] == p'[n] && p[n + 1] == p'[n + 1];
    assert a + d == spots[n + 1];
    TailLine(legs, credit, a, d);
    TailLine(legs', credit', a, d);
    RiseInjective(NetCallQuantity(legs), NetCallQuantity(legs'), d);
  }

  lemma RiseInjective(m: int, m': int, d: real)
    requires d > 0.0 && Rise(m, d) == Rise(m', d)
    ensures m == m'
  {
    Cancel(d, m as real, m' as real);
  }
}
