/** Ensemble weights under a cap, blending and disagreement (src/spy_der/forecasting/ensemble.py).
    Components are numbered in dictionary order; a component without a weight has weight 0. */
module Ensemble {
  import opened Options
  import opened RealSeqs

  // ----- Sums over some of the components -----

  function Times(x: real, y: real): real { x * y }

  function TotalIn(w: seq<real>, A: set<int>): real {
    if w == [] then 0.0
    else TotalIn(w[..|w| - 1], A) + if |w| - 1 in A then w[|w| - 1] else 0.0
  }

  function Below(n: nat): (r: set<int>)
    ensures forall i :: i in r <==> 0 <= i < n
  {
    if n == 0 then {} else Below(n - 1) + {n - 1}
  }

  function All(w: seq<real>): set<int> { Below(|w|) }

  ghost predicate NonNegative(w: seq<real>) { forall i :: 0 <= i < |w| ==> w[i] >= 0.0 }

  lemma {:induction false} TotalSplit(w: seq<real>, A: set<int>, B: set<int>)
    requires A !! B
    ensures TotalIn(w, A + B) == TotalIn(w, A) + TotalIn(w, B)
  {
    if w != [] { TotalSplit(w[..|w| - 1], A, B); }
  }

  lemma {:induction false} TotalScaled(w: seq<real>, v: seq<real>, A: set<int>, c: real)
    requires |w| == |v| && forall i :: 0 <= i < |w| && i in A ==> v[i] == Times(c, w[i])
    ensures TotalIn(v, A) == Times(c, TotalIn(w, A))
  {
    if w != [] {
      var n := |w| - 1;
      TotalScaled(w[..n], v[..n], A, c);
      TimesAdd(c, TotalIn(w[..n], A), w[n]);
    }
  }

  lemma {:induction false} TotalSame(w: seq<real>, v: seq<real>, A: set<int>)
    requires |w| == |v| && forall i :: 0 <= i < |w| && i in A ==> v[i] == w[i]
    ensures TotalIn(v, A) == TotalIn(w, A)
  {
    if w != [] { TotalSame(w[..|w| - 1], v[..|w| - 1], A); }
  }

  /** Non-negative weights: every member is at most the total, and totals grow with the set. */
  lemma {:induction false} TotalBounds(w: seq<real>, A: set<int>, i: int)
    requires NonNegative(w)
    ensures TotalIn(w, A) >= 0.0
    ensures 0 <= i < |w| && i in A ==> w[i] <= TotalIn(w, A)
  {
    if w != [] { TotalBounds(w[..|w| - 1], A, i); }
  }

  lemma {:induction false} TotalSingle(w: seq<real>, i: int)
    requires 0 <= i < |w|
    ensures TotalIn(w, {i}) == w[i]
  {
    var n := |w| - 1;
    if i < n {
      TotalSingle(w[..n], i);
    } else {
      TotalNone(w[..n], {i});
    }
  }

  lemma {:induction false} TotalNone(w: seq<real>, A: set<int>)
    requires forall i :: 0 <= i < |w| ==> i !in A
    ensures TotalIn(w, A) == 0.0
  {
    if w != [] { TotalNone(w[..|w| - 1], A); }
  }

  lemma {:induction false} TotalConstant(w: seq<real>, A: set<int>, c: real)
    requires (forall i :: 0 <= i < |w| ==> w[i] == c && i in A)
    ensures TotalIn(w, A) == c * |w| as real
  {
    if w != [] {
      TotalConstant(w[..|w| - 1], A, c);
      assert c * |w| as real == c * (|w| - 1) as real + c;
    }
  }

  // ----- enforce_max_weight -----

  function Clipped(weights: seq<real>): (r: seq<real>)
    ensures |r| == |weights| && NonNegative(r)
  {
    seq(|weights|, i requires 0 <= i < |weights| => Max(0.0, weights[i]))
  }

  function Uniform(n: nat): (r: seq<real>)
    requires n >= 1
    ensures |r| == n
  {
    seq(n, i => 1.0 / n as real)
  }

  function DividedBy(w: seq<real>, total: real): (r: seq<real>)
    requires total != 0.0
    ensures |r| == |w|
  {
    seq(|w|, i requires 0 <= i < |w| => w[i] / total)
  }

  /** Tiny weights are protected: never boosted, never capped. */
  function Protected(w: seq<real>, protectBelow: real): set<int> {
    set i | 0 <= i < |w| && w[i] <= protectBelow
  }

  function Over(w: seq<real>, guarded: set<int>, maximum: real, epsilon: real): set<int> {
    set i | 0 <= i < |w| && w[i] > maximum + epsilon && i !in guarded
  }

  function Free(w: seq<real>, over: set<int>, guarded: set<int>): set<int> {
    set i | 0 <= i < |w| && i !in over && i !in guarded
  }

  /** What is left for the free components once the capped and the protected ones are served. */
  function Remaining(w: seq<real>, over: set<int>, guarded: set<int>, maximum: real): real {
    Max(0.0, 1.0 - maximum * |over| as real - TotalIn(w, guarded))
  }

  /** The guard of the redistributing branch. */
  predicate CanRedistribute(w: seq<real>, over: set<int>, guarded: set<int>, maximum: real, epsilon: real) {
    TotalIn(w, Free(w, over, guarded)) > epsilon && Remaining(w, over, guarded, maximum) > epsilon
  }

  function PartOf(x: real, total: real, remain: real): real
    requires total != 0.0
  {
    x / total * remain
  }

  /** The capping pass on normalized weights. */
  function CapPass(w: seq<real>, guarded: set<int>, maximum: real, epsilon: real): (r: seq<real>)
    requires w != [] && epsilon >= 0.0
    ensures |r| == |w|
  {
    var over := Over(w, guarded, maximum, epsilon);
    var free := Free(w, over, guarded);
    if over == {} then w
    else if free != {} && CanRedistribute(w, over, guarded, maximum, epsilon) then
      var freeSum, remain := TotalIn(w, free), Remaining(w, over, guarded, maximum);
      seq(|w|, i requires 0 <= i < |w| =>
        if i in over then maximum else if i in free then PartOf(w[i], freeSum, remain) else w[i])
    else if free == {} && guarded == {} then Uniform(|w|)
    else seq(|w|, i requires 0 <= i < |w| => if i in over then maximum else w[i])
  }

  function EnforceMaxWeight(weights: seq<real>, maximum: real, epsilon: real, protectBelow: real): (r: seq<real>)
    requires epsilon >= 0.0
    ensures |r| == |weights|
  {
    var clipped := Clipped(weights);
    var total := TotalIn(clipped, All(clipped));
    if weights == [] then []
    else if total <= epsilon then Uniform(|weights|)
    else
      var capped := CapPass(DividedBy(clipped, total), Protected(clipped, protectBelow), maximum, epsilon);
      var mass := TotalIn(capped, All(capped));
      if mass > epsilon then DividedBy(capped, mass) else capped
  }

  /** Cap any single weight and renormalize the remainder. The source's pass loop always leaves
      on its first iteration, so it is written here without one. */
  method Enforce(weights: seq<real>, maximum: real, epsilon: real, protectBelow: real) returns (w: seq<real>)
    requires epsilon >= 0.0
    ensures w == EnforceMaxWeight(weights, maximum, epsilon, protectBelow)
  {
    hide TotalIn;
    w := Clipped(weights);
    if w == [] {
      return;
    }
    var guarded := Protected(w, protectBelow);
    var total := TotalIn(w, All(w));
    if total <= epsilon {
      return Uniform(|w|);
    }
    w := DividedBy(w, total);
    w := Cap(w, guarded, maximum, epsilon);
    total := TotalIn(w, All(w));
    if total > epsilon {
      w := DividedBy(w, total);
    }
  }

  method Cap(normalized: seq<real>, guarded: set<int>, maximum: real, epsilon: real) returns (w: seq<real>)
    requires normalized != [] && epsilon >= 0.0
    ensures w == CapPass(normalized, guarded, maximum, epsilon)
  {
    hide TotalIn, PartOf;
    w := normalized;
    var over := Over(w, guarded, maximum, epsilon);
    if over == {} {
      return;
    }
    var free := Free(w, over, guarded);
    var freeSum := TotalIn(normalized, free);
    var remain := Remaining(normalized, over, guarded, maximum);
    for i := 0 to |normalized|
      invariant |w| == |normalized|
      invariant forall j :: 0 <= j < |w| ==> w[j] == if j < i && j in over then maximum else normalized[j]
    {
      if i in over {
        w := w[i := maximum];
      }
    }
    if free != {} && freeSum > epsilon && remain > epsilon {
      for i := 0 to |normalized|
        invariant |w| == |normalized|
        invariant forall j :: 0 <= j < |w| ==>
          w[j] == if j in over then maximum else if j < i && j in free then PartOf(normalized[j], freeSum, remain)
              else normalized[j]
      {
        if i in free {
          w := w[i := PartOf(normalized[i], freeSum, remain)];
        }
      }
    } else if free == {} && guarded == {} {
      w := Uniform(|w|);
    }
  }

  // ----- What capping guarantees -----

  /** A distribution: non-negative and summing to one. */
  ghost predicate IsDistribution(w: seq<real>) {
    NonNegative(w) && TotalIn(w, All(w)) == 1.0
  }

  lemma DividedIsDistribution(w: seq<real>, total: real)
    requires NonNegative(w) && total == TotalIn(w, All(w)) && total > 0.0
    ensures IsDistribution(DividedBy(w, total))
    ensures total == 1.0 ==> DividedBy(w, total) == w
  {
    hide TotalIn, Times;
    var v := DividedBy(w, total);
    forall i | 0 <= i < |w|
      ensures v[i] == Times(1.0 / total, w[i]) && v[i] >= 0.0 && (total == 1.0 ==> v[i] == w[i])
    {
      ShareOf(w[i], total);
    }
    assert All(v) == All(w);
    TotalScaled(w, v, All(w), 1.0 / total);
    ShareOf(total, total);
    QuotientOf(total, total, 1.0);
  }

  lemma ShareOf(x: real, total: real)
    requires total > 0.0
    ensures x / total == Times(1.0 / total, x)
    ensures x >= 0.0 ==> x / total >= 0.0
    ensures total == 1.0 ==> x / total == x
  {
    var q, r := x / total, 1.0 / total;
    QuotientTimes(x, total);
    QuotientTimes(1.0, total);
    ProductSign(total, q);
    Exchange(r, x, total, 1.0);
    QuotientOf(x, total, r * x);
  }

  lemma UniformIsDistribution(n: nat)
    requires n >= 1
    ensures IsDistribution(Uniform(n))
  {
    var w := Uniform(n);
    var c := 1.0 / n as real;
    assert c * n as real == 1.0;
    ProductSign(n as real, c);
    TotalConstant(w, All(w), c);
  }

  /** The normalized distribution of weights above epsilon, and who is over the cap. */
  ghost predicate Normalized(w: seq<real>, over: set<int>, guarded: set<int>, maximum: real, epsilon: real) {
    && w != [] && IsDistribution(w)
    && over == Over(w, guarded, maximum, epsilon)
    && guarded <= All(w)
    && 0.0 <= epsilon < 0.5 <= maximum
  }

  /** With a cap of at least one half no two components can be over it. */
  lemma AtMostOneOver(w: seq<real>, over: set<int>, guarded: set<int>, maximum: real, epsilon: real, o: int)
    requires Normalized(w, over, guarded, maximum, epsilon) && o in over
    ensures over == {o}
    ensures w[o] + TotalIn(w, guarded) + TotalIn(w, Free(w, over, guarded)) == 1.0
    ensures TotalIn(w, guarded) >= 0.0 && TotalIn(w, Free(w, over, guarded)) >= 0.0
  {
    hide TotalIn;
    var rest := All(w) - {o};
    assert All(w) == {o} + rest;
    TotalSplit(w, {o}, rest);
    TotalSingle(w, o);
    forall p | p in over ensures p == o {
      if p != o { TotalBounds(w, rest, p); }
    }
    assert over == {o};
    var free := Free(w, over, guarded);
    assert rest == guarded + free;
    TotalSplit(w, guarded, free);
    TotalBounds(w, guarded, o);
    TotalBounds(w, free, o);
  }

  lemma CapPassAt(w: seq<real>, over: set<int>, guarded: set<int>, maximum: real, epsilon: real, i: int)
    requires w != [] && epsilon >= 0.0 && over == Over(w, guarded, maximum, epsilon) != {} && 0 <= i < |w|
    requires Free(w, over, guarded) != {} && CanRedistribute(w, over, guarded, maximum, epsilon)
    ensures var free := Free(w, over, guarded);
      CapPass(w, guarded, maximum, epsilon)[i] ==
        if i in over then maximum
        else if i in free then PartOf(w[i], TotalIn(w, free), Remaining(w, over, guarded, maximum))
        else w[i]
  {
    hide TotalIn, Remaining, PartOf;
  }

  lemma RedistributedAt(w: seq<real>, over: set<int>, guarded: set<int>, maximum: real, epsilon: real, o: int)
    returns (share: real)
    requires Normalized(w, over, guarded, maximum, epsilon) && o in over
    requires Free(w, over, guarded) != {} && CanRedistribute(w, over, guarded, maximum, epsilon)
    ensures var free, r := Free(w, over, guarded), CapPass(w, guarded, maximum, epsilon);
      var remain := 1.0 - maximum - TotalIn(w, guarded);
      && over == {o} && 0.0 < remain <= maximum && Times(share, TotalIn(w, free)) == remain
      && r[o] == maximum
      && (forall i :: i in free ==> r[i] == Times(share, w[i]) && 0.0 <= r[i] <= remain)
      && (forall i :: i in guarded ==> r[i] == w[i] && 0.0 <= r[i] <= maximum)
  {
    hide TotalIn, Remaining, PartOf, CapPass, Times, Free, Over;
    FreeSplit(w, over, guarded, maximum, epsilon);
    AtMostOneOver(w, over, guarded, maximum, epsilon, o);
    RemainingOfOne(w, over, guarded, maximum, o);
    var free, r := Free(w, over, guarded), CapPass(w, guarded, maximum, epsilon);
    var freeSum, remain := TotalIn(w, free), Remaining(w, over, guarded, maximum);
    share := ShareFor(remain, freeSum);
    forall i | i in free ensures r[i] == Times(share, w[i]) && 0.0 <= r[i] <= remain {
      CapPassAt(w, over, guarded, maximum, epsilon, i);
      TotalBounds(w, free, i);
      PartOfShare(w[i], freeSum, share, remain);
    }
    forall i | i in guarded ensures r[i] == w[i] && 0.0 <= r[i] <= maximum {
      CapPassAt(w, over, guarded, maximum, epsilon, i);
      TotalBounds(w, guarded, i);
    }
    CapPassAt(w, over, guarded, maximum, epsilon, o);
  }

  /** Serving the cap, the protected and the free ones in proportion leaves a distribution under the cap. */
  lemma Redistributed(w: seq<real>, over: set<int>, guarded: set<int>, maximum: real, epsilon: real, o: int)
    requires Normalized(w, over, guarded, maximum, epsilon) && o in over
    requires Free(w, over, guarded) != {} && CanRedistribute(w, over, guarded, maximum, epsilon)
    ensures var r := CapPass(w, guarded, maximum, epsilon);
      && IsDistribution(r)
      && (forall i :: 0 <= i < |r| ==> r[i] <= maximum)
      && (forall i :: i in guarded ==> r[i] == w[i])
  {
    hide TotalIn, CapPass, CanRedistribute;
    var share := RedistributedAt(w, over, guarded, maximum, epsilon, o);
    var free, r := Free(w, over, guarded), CapPass(w, guarded, maximum, epsilon);
    assert forall i :: 0 <= i < |r| ==> i == o || i in guarded || i in free;
    TotalScaled(w, r, free, share);
    TotalSame(w, r, guarded);
    TotalSingle(r, o);
    assert All(r) == {o} + (guarded + free);
    TotalSplit(r, {o}, guarded + free);
    TotalSplit(r, guarded, free);
  }

  lemma FreeSplit(w: seq<real>, over: set<int>, guarded: set<int>, maximum: real, epsilon: real)
    requires over == Over(w, guarded, maximum, epsilon)
    ensures forall i :: i in over ==> 0 <= i < |w| && i !in guarded
    ensures forall i :: i in Free(w, over, guarded) ==> 0 <= i < |w| && i !in over && i !in guarded
  {
  }

  lemma ShareFor(remain: real, total: real) returns (share: real)
    requires remain > 0.0 && total > 0.0
    ensures share >= 0.0 && Times(share, total) == remain
  {
    share := remain / total;
    assert share * total == remain;
    ProductSign(total, share);
  }

  lemma PartOfShare(x: real, total: real, share: real, remain: real)
    requires 0.0 <= x <= total && share >= 0.0 && total > 0.0 && remain == Times(share, total)
    ensures PartOf(x, total, remain) == Times(share, x)
    ensures 0.0 <= Times(share, x) <= remain
  {
    var q := x / total;
    assert q * total == x;
    assert q * (share * total) == share * (q * total);
    ProductSign(share, x);
    ProductSign(share, total - x);
    assert share * (total - x) == share * total - share * x;
  }

  lemma RemainingOfOne(w: seq<real>, over: set<int>, guarded: set<int>, maximum: real, o: int)
    requires over == {o}
    ensures Remaining(w, over, guarded, maximum) == Max(0.0, 1.0 - maximum - TotalIn(w, guarded))
  {
    assert |over| == 1;
  }

  /** Otherwise the weight over the cap stays above it, whatever the final normalization does. */
  lemma NotRedistributed(w: seq<real>, over: set<int>, guarded: set<int>, maximum: real, epsilon: real, o: int)
    requires Normalized(w, over, guarded, maximum, epsilon) && o in over
    requires !CanRedistribute(w, over, guarded, maximum, epsilon)
    ensures var r := CapPass(w, guarded, maximum, epsilon);
      var mass := TotalIn(r, All(r));
      && NonNegative(r) && mass > epsilon && r[o] / mass > maximum
  {
    hide TotalIn, Remaining, CanRedistribute;
    AtMostOneOver(w, over, guarded, maximum, epsilon, o);
    var free, r := Free(w, over, guarded), CapPass(w, guarded, maximum, epsilon);
    var mass := TotalIn(r, All(r));
    if free == {} && guarded == {} {
      assert All(w) == {o};
      assert |w| == 1 by { assert |w| - 1 in All(w) && 0 in All(w); }
      UniformIsDistribution(1);
      TotalBounds(w, {o}, o);
      TotalSingle(w, o);
      assert r[o] == 1.0;
    } else {
      TotalSame(w, r, guarded);
      TotalSame(w, r, free);
      TotalSingle(r, o);
      assert All(r) == {o} + (guarded + free);
      TotalSplit(r, {o}, guarded + free);
      TotalSplit(r, guarded, free);
      assert mass == maximum + 1.0 - w[o];
      ShareGrows(maximum, mass);
    }
  }

  lemma ShareGrows(maximum: real, mass: real)
    requires maximum > 0.0 && 0.0 < mass < 1.0
    ensures maximum / mass > maximum
  {
    var q := maximum / mass;
    QuotientTimes(maximum, mass);
    ProductSign(mass, q);
    ProductSign(q, 1.0 - mass);
    Distribute(q, 1.0, mass);
  }

  lemma ClippedNormalized(weights: seq<real>, maximum: real, epsilon: real, protectBelow: real)
    requires weights != [] && 0.0 <= epsilon < 0.5 <= maximum
    requires TotalIn(Clipped(weights), All(Clipped(weights))) > epsilon
    ensures var clipped := Clipped(weights);
      var w, guarded := DividedBy(clipped, TotalIn(clipped, All(clipped))), Protected(clipped, protectBelow);
      Normalized(w, Over(w, guarded, maximum, epsilon), guarded, maximum, epsilon)
  {
    hide TotalIn;
    var clipped := Clipped(weights);
    DividedIsDistribution(clipped, TotalIn(clipped, All(clipped)));
  }

  /** For any cap above epsilon, below one half too, the output is a distribution. */
  lemma CappedIsDistribution(weights: seq<real>, maximum: real, epsilon: real, protectBelow: real)
    requires weights != [] && 0.0 <= epsilon < 1.0 && epsilon < maximum
    ensures IsDistribution(EnforceMaxWeight(weights, maximum, epsilon, protectBelow))
  {
    hide TotalIn, CapPass, DividedBy, Uniform, CanRedistribute;
    var clipped := Clipped(weights);
    var total := TotalIn(clipped, All(clipped));
    if total <= epsilon {
      UniformIsDistribution(|weights|);
    } else {
      DividedIsDistribution(clipped, total);
      PassKeepsMass(DividedBy(clipped, total), Protected(clipped, protectBelow), maximum, epsilon);
      var capped := CapPass(DividedBy(clipped, total), Protected(clipped, protectBelow), maximum, epsilon);
      DividedIsDistribution(capped, TotalIn(capped, All(capped)));
    }
  }

  lemma PassKeepsMass(w: seq<real>, guarded: set<int>, maximum: real, epsilon: real)
    requires w != [] && IsDistribution(w) && 0.0 <= epsilon < 1.0 && epsilon < maximum
    ensures var r := CapPass(w, guarded, maximum, epsilon);
      NonNegative(r) && TotalIn(r, All(r)) > epsilon
  {
    hide TotalIn, CanRedistribute, PartOf;
    var over, r := Over(w, guarded, maximum, epsilon), CapPass(w, guarded, maximum, epsilon);
    var free := Free(w, over, guarded);
    UniformIsDistribution(|w|);
    if o :| o in over {
      if CanRedistribute(w, over, guarded, maximum, epsilon) {
        FreeExists(w, over, guarded, maximum, epsilon);
        forall i | i in free ensures r[i] >= 0.0 {
          CapPassAt(w, over, guarded, maximum, epsilon, i);
          GuardHolds(w, over, guarded, maximum, epsilon);
          PartNonNegative(w[i], TotalIn(w, free), Remaining(w, over, guarded, maximum));
        }
      }
      TotalBounds(r, All(r), o);
    }
  }

  lemma GuardHolds(w: seq<real>, over: set<int>, guarded: set<int>, maximum: real, epsilon: real)
    requires CanRedistribute(w, over, guarded, maximum, epsilon)
    ensures TotalIn(w, Free(w, over, guarded)) > epsilon && Remaining(w, over, guarded, maximum) > epsilon
  {
  }

  lemma PartNonNegative(x: real, total: real, remain: real)
    requires x >= 0.0 && total > 0.0 && remain >= 0.0
    ensures PartOf(x, total, remain) >= 0.0
  {
    var q := x / total;
    assert q * total == x;
    ProductSign(total, q);
    ProductSign(q, remain);
  }

  lemma FreeExists(w: seq<real>, over: set<int>, guarded: set<int>, maximum: real, epsilon: real)
    requires CanRedistribute(w, over, guarded, maximum, epsilon) && epsilon >= 0.0
    ensures Free(w, over, guarded) != {}
  {
    if Free(w, over, guarded) == {} { TotalNone(w, {}); }
  }

  /** The whole input condition under which no output exceeds the cap: the uniform branch if the total
      vanishes; the normalized weights as they are, protected ones included, if no unprotected component
      is over the cap; otherwise the guard of the redistributing branch. */
  ghost predicate CapFits(weights: seq<real>, maximum: real, epsilon: real, protectBelow: real)
    requires weights != [] && epsilon >= 0.0
  {
    var clipped := Clipped(weights);
    var total := TotalIn(clipped, All(clipped));
    if total <= epsilon then 1.0 / |weights| as real <= maximum
    else
      var w, guarded := DividedBy(clipped, total), Protected(clipped, protectBelow);
      var over := Over(w, guarded, maximum, epsilon);
      if over == {} then AtMost(w, maximum) else CanRedistribute(w, over, guarded, maximum, epsilon)
  }

  ghost predicate AtMost(w: seq<real>, maximum: real) { forall i :: 0 <= i < |w| ==> w[i] <= maximum }

  /** The cap does not always hold: for every input, all outputs are at most the cap if and only if CapFits. */
  lemma CapHoldsExactly(weights: seq<real>, maximum: real, epsilon: real, protectBelow: real)
    requires weights != [] && 0.0 <= epsilon < 0.5 <= maximum
    ensures AtMost(EnforceMaxWeight(weights, maximum, epsilon, protectBelow), maximum)
        <==> CapFits(weights, maximum, epsilon, protectBelow)
  {
    hide TotalIn, CapPass, DividedBy, CanRedistribute, Over, Protected, AtMost;
    var clipped := Clipped(weights);
    var total := TotalIn(clipped, All(clipped));
    if total <= epsilon {
      UniformAtMost(|weights|, maximum);
    } else {
      var w, guarded := DividedBy(clipped, total), Protected(clipped, protectBelow);
      if Over(w, guarded, maximum, epsilon) == {} {
        NoneOver(weights, maximum, epsilon, protectBelow);
      } else {
        HasInt(Over(w, guarded, maximum, epsilon));
        var o :| o in Over(w, guarded, maximum, epsilon);
        CapWithOneOver(weights, maximum, epsilon, protectBelow, o);
      }
    }
  }

  lemma UniformAtMost(n: nat, maximum: real)
    requires n >= 1
    ensures AtMost(Uniform(n), maximum) <==> 1.0 / n as real <= maximum
  {
    assert Uniform(n)[0] == 1.0 / n as real;
  }

  /** With no unprotected component over the cap the output is the normalized weights. */
  lemma NoneOver(weights: seq<real>, maximum: real, epsilon: real, protectBelow: real)
    requires weights != [] && epsilon >= 0.0
    requires TotalIn(Clipped(weights), All(Clipped(weights))) > epsilon
    requires var clipped := Clipped(weights);
      Over(DividedBy(clipped, TotalIn(clipped, All(clipped))), Protected(clipped, protectBelow), maximum, epsilon) == {}
    ensures var clipped := Clipped(weights);
      EnforceMaxWeight(weights, maximum, epsilon, protectBelow) == DividedBy(clipped, TotalIn(clipped, All(clipped)))
  {
    hide TotalIn, DividedBy;
    var clipped := Clipped(weights);
    var w := DividedBy(clipped, TotalIn(clipped, All(clipped)));
    DividedIsDistribution(clipped, TotalIn(clipped, All(clipped)));
    DividedIsDistribution(w, 1.0);
  }

  /** Redistribution succeeds exactly when its guard holds; protected weights then keep their normalized value. */
  lemma CapWithOneOver(weights: seq<real>, maximum: real, epsilon: real, protectBelow: real, o: int)
    requires weights != [] && 0.0 <= epsilon < 0.5 <= maximum
    requires TotalIn(Clipped(weights), All(Clipped(weights))) > epsilon
    requires var clipped := Clipped(weights);
      o in Over(DividedBy(clipped, TotalIn(clipped, All(clipped))), Protected(clipped, protectBelow), maximum, epsilon)
    ensures var clipped, out := Clipped(weights), EnforceMaxWeight(weights, maximum, epsilon, protectBelow);
      var w, guarded := DividedBy(clipped, TotalIn(clipped, All(clipped))), Protected(clipped, protectBelow);
      var fits := CanRedistribute(w, Over(w, guarded, maximum, epsilon), guarded, maximum, epsilon);
      && (AtMost(out, maximum) <==> fits)
      && (fits ==> forall i :: i in guarded ==> out[i] == w[i])
  {
    hide TotalIn, CapPass, DividedBy, CanRedistribute, Over, Protected;
    var clipped := Clipped(weights);
    var w, guarded := DividedBy(clipped, TotalIn(clipped, All(clipped))), Protected(clipped, protectBelow);
    var over := Over(w, guarded, maximum, epsilon);
    ClippedNormalized(weights, maximum, epsilon, protectBelow);
    var capped := CapPass(w, guarded, maximum, epsilon);
    var mass := TotalIn(capped, All(capped));
    InRange(w, guarded, maximum, epsilon, o);
    if CanRedistribute(w, over, guarded, maximum, epsilon) {
      FreeExists(w, over, guarded, maximum, epsilon);
      Redistributed(w, over, guarded, maximum, epsilon, o);
      DividedIsDistribution(capped, mass);
    } else {
      NotRedistributed(w, over, guarded, maximum, epsilon, o);
      DividedAt(capped, mass, o);
    }
  }

  /** With the default parameters: a lone component keeps all the weight, and a tiny weight that dwarfs
      the others is protected from the cap. */
  lemma CapEscapes()
    ensures EnforceMaxWeight([1.0], 0.6, 0.000000000001, 0.0001) == [1.0]
    ensures EnforceMaxWeight([0.0001, 0.000001], 0.6, 0.000000000001, 0.0001) == [100.0 / 101.0, 1.0 / 101.0]
    ensures !CapFits([1.0], 0.6, 0.000000000001, 0.0001)
    ensures !CapFits([0.0001, 0.000001], 0.6, 0.000000000001, 0.0001)
  {
    LoneComponent();
    ProtectedPair();
    CapHoldsExactly([1.0], 0.6, 0.000000000001, 0.0001);
    CapHoldsExactly([0.0001, 0.000001], 0.6, 0.000000000001, 0.0001);
    hide CapFits, EnforceMaxWeight;
    assert [1.0][0] > 0.6;
    assert [100.0 / 101.0, 1.0 / 101.0][0] > 0.6;
  }

  lemma TotalOfOne(x: real)
    ensures TotalIn([x], All([x])) == x
  {
    assert [x][..0] == [];
    assert TotalIn([x], All([x])) == TotalIn([x][..0], All([x])) + x;
  }

  lemma TotalOfTwo(x: real, y: real)
    ensures TotalIn([x, y], All([x, y])) == x + y
  {
    assert [x, y][..1] == [x] && [x][..0] == [];
    assert TotalIn([x], All([x, y])) == TotalIn([x][..0], All([x, y])) + x;
  }

  lemma LoneComponent()
    ensures EnforceMaxWeight([1.0], 0.6, 0.000000000001, 0.0001) == [1.0]
  {
    hide TotalIn, PartOf;
    var w := [1.0];
    TotalOfOne(1.0);
    assert Clipped(w) == w && DividedBy(w, 1.0) == w && Uniform(1) == w;
    assert Protected(w, 0.0001) == {};
    assert 0 in Over(w, {}, 0.6, 0.000000000001);
    assert Free(w, Over(w, {}, 0.6, 0.000000000001), {}) == {};
    assert CapPass(w, {}, 0.6, 0.000000000001) == w;
  }

  lemma ProtectedPair()
    ensures EnforceMaxWeight([0.0001, 0.000001], 0.6, 0.000000000001, 0.0001) == [100.0 / 101.0, 1.0 / 101.0]
  {
    hide TotalIn;
    var w := [0.0001, 0.000001];
    TotalOfTwo(0.0001, 0.000001);
    assert Clipped(w) == w;
    assert Protected(w, 0.0001) == {0, 1};
    var normalized := DividedBy(w, 0.000101);
    assert Over(normalized, {0, 1}, 0.6, 0.000000000001) == {};
    NoneOver(w, 0.6, 0.000000000001, 0.0001);
    assert normalized == [100.0 / 101.0, 1.0 / 101.0];
  }

  lemma InRange(w: seq<real>, guarded: set<int>, maximum: real, epsilon: real, o: int)
    requires o in Over(w, guarded, maximum, epsilon)
    ensures 0 <= o < |w|
  {
  }

  lemma DividedAt(w: seq<real>, total: real, i: int)
    requires total != 0.0 && 0 <= i < |w|
    ensures DividedBy(w, total)[i] == w[i] / total
  {
  }

  // ----- Blending -----

  function Positive(weights: seq<real>): set<int> { set i | 0 <= i < |weights| && weights[i] > 0.0 }

  function Products(a: seq<real>, b: seq<real>): (r: seq<real>)
    requires |a| == |b|
    ensures |r| == |a|
  {
    seq(|a|, i requires 0 <= i < |a| => Times(a[i], b[i]))
  }

  /** No positively weighted component is an error (None). */
  function WeightedBlend(predictions: seq<real>, weights: seq<real>): Option<real>
    requires |predictions| == |weights|
  {
    if Positive(weights) == {} then None else Some(TotalIn(Products(weights, predictions), Positive(weights)))
  }

  function SquaredGaps(predictions: seq<real>, mu: real): (r: seq<real>)
    ensures |r| == |predictions|
  {
    seq(|predictions|, i requires 0 <= i < |predictions| => Gap(predictions[i], mu))
  }

  function Squared(x: real): real { Times(x, x) }

  function Gap(p: real, mu: real): real { Squared(p - mu) }

  function WeightedDisagreement(predictions: seq<real>, weights: seq<real>, final: real): real
    requires |predictions| == |weights|
  {
    if |Positive(weights)| <= 1 then 0.0
    else TotalIn(Products(weights, SquaredGaps(predictions, final)), Positive(weights))
  }

  lemma {:induction false} WeightedBounds(w: seq<real>, p: seq<real>, A: set<int>, lo: real, hi: real)
    requires |w| == |p| && NonNegative(w)
    requires forall i :: 0 <= i < |w| && i in A ==> lo <= p[i] <= hi
    ensures Times(lo, TotalIn(w, A)) <= TotalIn(Products(w, p), A) <= Times(hi, TotalIn(w, A))
  {
    if w != [] {
      hide Times;
      var n := |w| - 1;
      WeightedBounds(w[..n], p[..n], A, lo, hi);
      ProductsPrefix(w, p);
      if n in A {
        WeightedTerm(w[n], p[n], lo, hi);
        TimesAdd(lo, TotalIn(w[..n], A), w[n]);
        TimesAdd(hi, TotalIn(w[..n], A), w[n]);
      }
    }
  }

  lemma TimesAdd(k: real, x: real, y: real)
    ensures Times(k, x + y) == Times(k, x) + Times(k, y)
  {
  }

  lemma ProductsPrefix(a: seq<real>, b: seq<real>)
    requires |a| == |b| >= 1
    ensures Products(a, b)[..|a| - 1] == Products(a[..|a| - 1], b[..|a| - 1])
  {
    hide Times;
  }

  lemma WeightedTerm(w: real, p: real, lo: real, hi: real)
    requires w >= 0.0 && lo <= p <= hi
    ensures Times(lo, w) <= Times(w, p) <= Times(hi, w)
  {
    ProductSign(w, p - lo);
    ProductSign(w, hi - p);
    assert w * (p - lo) == w * p - w * lo;
    assert w * (hi - p) == w * hi - w * p;
  }

  lemma PositivesCarryAll(w: seq<real>)
    requires IsDistribution(w)
    ensures TotalIn(w, Positive(w)) == 1.0 && Positive(w) != {}
  {
    hide TotalIn;
    var rest := All(w) - Positive(w);
    assert All(w) == Positive(w) + rest;
    TotalSplit(w, Positive(w), rest);
    var zero := seq(|w|, i requires 0 <= i < |w| => 0.0 * w[i]);
    TotalScaled(w, w, rest, 0.0);
    if Positive(w) == {} { TotalNone(w, {}); }
  }

  /** Blending with a distribution of weights stays within the range of the positively weighted predictions. */
  lemma BlendWithinRange(predictions: seq<real>, weights: seq<real>, lo: real, hi: real)
    requires |predictions| == |weights| && IsDistribution(weights)
    requires forall i :: i in Positive(weights) ==> lo <= predictions[i] <= hi
    ensures WeightedBlend(predictions, weights).Some?
    ensures lo <= WeightedBlend(predictions, weights).value <= hi
  {
    hide TotalIn;
    PositivesCarryAll(weights);
    WeightedBounds(weights, predictions, Positive(weights), lo, hi);
  }

  /** So a blend under capped weights, whatever the raw weights were, stays within the range of the predictions. */
  lemma CappedBlendWithinRange(predictions: seq<real>, weights: seq<real>, maximum: real, epsilon: real,
                               protectBelow: real,
                               lo: real, hi: real)
    requires |predictions| == |weights| != 0 && 0.0 <= epsilon < 1.0 && epsilon < maximum
    requires forall i :: 0 <= i < |predictions| ==> lo <= predictions[i] <= hi
    ensures var blend := WeightedBlend(predictions, EnforceMaxWeight(weights, maximum, epsilon, protectBelow));
      blend.Some? && lo <= blend.value <= hi
  {
    CappedIsDistribution(weights, maximum, epsilon, protectBelow);
    BlendWithinRange(predictions, EnforceMaxWeight(weights, maximum, epsilon, protectBelow), lo, hi);
  }

  /** A weighted sum of non-negative terms vanishes exactly when every positively weighted term does. */
  lemma {:induction false} WeightedZero(w: seq<real>, t: seq<real>, A: set<int>)
    requires |w| == |t| && NonNegative(w) && NonNegative(t)
    requires forall i :: 0 <= i < |w| && i in A ==> w[i] > 0.0
    ensures TotalIn(Products(w, t), A) >= 0.0
    ensures TotalIn(Products(w, t), A) == 0.0 <==> forall i :: 0 <= i < |w| && i in A ==> t[i] == 0.0
  {
    if w != [] {
      var n := |w| - 1;
      WeightedZero(w[..n], t[..n], A);
      ProductsPrefix(w, t);
      TimesZero(w[n], t[n]);
      assert forall i :: 0 <= i < n ==> t[..n][i] == t[i];
    }
  }

  lemma TimesZero(w: real, t: real)
    requires w >= 0.0 && t >= 0.0
    ensures Times(w, t) >= 0.0
    ensures w > 0.0 ==> (Times(w, t) == 0.0 <==> t == 0.0)
  {
    ProductSign(w, t);
  }

  lemma TimesPositive(x: real, y: real)
    requires x > 0.0 && y > 0.0
    ensures Times(x, y) > 0.0
  {
    ProductSign(x, y);
  }

  lemma TimesNegated(x: real, y: real)
    ensures Times(-x, -y) == Times(x, y) && Times(0.0, y) == 0.0
  {
    assert (-x) * (-y) == x * y;
  }

  lemma GapZero(p: real, mu: real)
    ensures Gap(p, mu) >= 0.0
    ensures Gap(p, mu) == 0.0 <==> p == mu
  {
    hide Squared;
    SquaredZero(p - mu);
  }

  lemma SquaredZero(x: real)
    ensures Squared(x) >= 0.0
    ensures Squared(x) == 0.0 <==> x == 0.0
  {
    hide Times;
    TimesNegated(x, x);
    if x > 0.0 {
      TimesPositive(x, x);
    } else if x < 0.0 {
      TimesPositive(-x, -x);
    }
  }

  /** Disagreement around the blend is never negative, and is zero exactly when all positively weighted
      predictions agree. */
  lemma DisagreementZeroIffAgreed(predictions: seq<real>, weights: seq<real>)
    requires |predictions| == |weights| && IsDistribution(weights)
    ensures WeightedBlend(predictions, weights).Some?
    ensures var d := WeightedDisagreement(predictions, weights, WeightedBlend(predictions, weights).value);
      && d >= 0.0
      && (d == 0.0 <==>
          forall i, j :: i in Positive(weights) && j in Positive(weights) ==> predictions[i] == predictions[j])
  {
    hide TotalIn, Gap;
    var A := Positive(weights);
    PositivesCarryAll(weights);
    var mu := WeightedBlend(predictions, weights).value;
    var gaps := SquaredGaps(predictions, mu);
    forall i | 0 <= i < |predictions| ensures gaps[i] >= 0.0 && (gaps[i] == 0.0 <==> predictions[i] == mu) {
      GapZero(predictions[i], mu);
    }
    WeightedZero(weights, gaps, A);
    if forall i, j :: i in A && j in A ==> predictions[i] == predictions[j] {
      var k :| k in A;
      BlendWithinRange(predictions, weights, predictions[k], predictions[k]);
    }
    if |A| <= 1 { SingletonAgrees(A); }
  }

  lemma SingletonAgrees(A: set<int>)
    requires |A| <= 1
    ensures forall i, j :: i in A && j in A ==> i == j
  {
    forall i, j | i in A && j in A ensures i == j {
      if i != j {
        assert {i, j} <= A && |{i, j}| == 2;
        SubsetSize({i, j}, A);
      }
    }
  }
}
