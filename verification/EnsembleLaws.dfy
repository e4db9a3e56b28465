/** What capped weights and blends are, component by component (src/spy_der/forecasting/ensemble.py). */
module EnsembleLaws {
  import opened Options
  import opened RealSeqs
  import opened Ensemble

  // ----- The capped weights -----

  /** Weights at or below zero count as zero, and the others as they are. */
  lemma NegativeCountsAsZero(weights: seq<real>, maximum: real, epsilon: real, protectBelow: real, i: nat)
    requires epsilon >= 0.0 && i < |weights| && weights[i] <= 0.0
    ensures EnforceMaxWeight(weights, maximum, epsilon, protectBelow)
         == EnforceMaxWeight(weights[i := 0.0], maximum, epsilon, protectBelow)
    ensures NonNegative(weights[i := 0.0]) ==> Clipped(weights) == weights[i := 0.0]
  {
    assert Clipped(weights) == Clipped(weights[i := 0.0]);
  }

  /** The normalized weights: in proportion to the weights. */
  function Normal(weights: seq<real>): seq<real>
    requires TotalIn(weights, All(weights)) != 0.0
  {
    DividedBy(weights, TotalIn(weights, All(weights)))
  }

  /** If no component but the tiny ones exceeds the cap by more than epsilon, the weights are just normalized. */
  lemma WithinTolerance(weights: seq<real>, maximum: real, epsilon: real, protectBelow: real)
    requires NonNegative(weights) && weights != [] && epsilon >= 0.0 && TotalIn(weights, All(weights)) > epsilon
    requires forall i :: 0 <= i < |weights| && weights[i] > protectBelow ==> Normal(weights)[i] <= maximum + epsilon
    ensures EnforceMaxWeight(weights, maximum, epsilon, protectBelow) == Normal(weights)
  {
    hide TotalIn, DividedBy;
    assert Clipped(weights) == weights;
    NoInt(Over(Normal(weights), Protected(weights, protectBelow), maximum, epsilon));
    NoneOver(weights, maximum, epsilon, protectBelow);
  }

  /** The one component over the cap, the tiny ones, and the rest. */
  ghost predicate OneOver(weights: seq<real>, maximum: real, epsilon: real, protectBelow: real, o: int, tiny: set<int>,
                          rest: set<int>)
  {
    && NonNegative(weights) && weights != [] && 0.0 <= epsilon < 0.5 <= maximum
    && TotalIn(weights, All(weights)) > epsilon
    && 0 <= o < |weights| && weights[o] > protectBelow && Normal(weights)[o] > maximum + epsilon
    && (forall i :: i in tiny <==> 0 <= i < |weights| && weights[i] <= protectBelow)
    && (forall i :: i in rest <==> 0 <= i < |weights| && i != o && i !in tiny)
  }

  lemma Parts(weights: seq<real>, maximum: real, epsilon: real, protectBelow: real, o: int, tiny: set<int>,
              rest: set<int>)
    requires OneOver(weights, maximum, epsilon, protectBelow, o, tiny, rest)
    ensures var w := Normal(weights);
      && Clipped(weights) == weights && Protected(weights, protectBelow) == tiny
      && Over(w, tiny, maximum, epsilon) == {o} && Free(w, {o}, tiny) == rest
      && Normalized(w, {o}, tiny, maximum, epsilon)
  {
    hide TotalIn, DividedBy;
    assert Clipped(weights) == weights;
    assert Protected(weights, protectBelow) == tiny;
    ClippedNormalized(weights, maximum, epsilon, protectBelow);
    var w := Normal(weights);
    assert o in Over(w, tiny, maximum, epsilon);
    AtMostOneOver(w, Over(w, tiny, maximum, epsilon), tiny, maximum, epsilon, o);
    assert Free(w, {o}, tiny) == rest;
  }

  /** With one component over the cap,
      every weight of the output. If both the weight of the rest and what the cap and the
      tiny components leave exceed epsilon, the one over gets the cap, the tiny ones keep their normalized
      weight, and the rest share what is left in proportion. Otherwise all keep their proportion to the
      cap. */
  lemma CappedWeightsExactly(weights: seq<real>, maximum: real, epsilon: real, protectBelow: real, o: int,
                             tiny: set<int>, rest: set<int>)
    requires OneOver(weights, maximum, epsilon, protectBelow, o, tiny, rest)
    ensures var w, out := Normal(weights), EnforceMaxWeight(weights, maximum, epsilon, protectBelow);
      var left := 1.0 - maximum - TotalIn(w, tiny);
      if TotalIn(w, rest) > epsilon && left > epsilon then
        && out[o] == maximum
        && (forall i :: i in tiny ==> out[i] == w[i])
        && (forall i :: i in rest ==> Times(out[i], TotalIn(w, rest)) == Times(w[i], left))
      else
        forall i :: 0 <= i < |out| && i != o ==> Times(out[i], maximum) == Times(out[o], w[i])
  {
    hide TotalIn, DividedBy, CapPass, CanRedistribute, Times, Over, Free, Protected;
    Parts(weights, maximum, epsilon, protectBelow, o, tiny, rest);
    var w := Normal(weights);
    var capped := CapPass(w, tiny, maximum, epsilon);
    GuardIs(w, o, tiny, rest, maximum, epsilon);
    if CanRedistribute(w, {o}, tiny, maximum, epsilon) {
      FreeExists(w, {o}, tiny, maximum, epsilon);
      var share := RedistributedAt(w, {o}, tiny, maximum, epsilon, o);
      Redistributed(w, {o}, tiny, maximum, epsilon, o);
      DividedIsDistribution(capped, TotalIn(capped, All(capped)));
      forall i | i in rest ensures Times(capped[i], TotalIn(w, rest)) == Times(w[i], 1.0 - maximum - TotalIn(w, tiny)) {
        ShareTwice(share, w[i], TotalIn(w, rest));
      }
    } else {
      NotRedistributed(w, {o}, tiny, maximum, epsilon, o);
      var mass := TotalIn(capped, All(capped));
      forall i | 0 <= i < |w| && i != o ensures Times(capped[i] / mass, maximum) == Times(capped[o] / mass, w[i]) {
        KeptAt(w, o, tiny, rest, maximum, epsilon, i);
        SameProportion(capped[i], capped[o], w[i], maximum, mass);
      }
      forall i | 0 <= i < |w| ensures DividedBy(capped, mass)[i] == capped[i] / mass { DividedAt(capped, mass, i); }
    }
  }

  lemma GuardIs(w: seq<real>, o: int, tiny: set<int>, rest: set<int>, maximum: real, epsilon: real)
    requires Free(w, {o}, tiny) == rest && epsilon >= 0.0
    ensures CanRedistribute(w, {o}, tiny, maximum, epsilon)
       <==> TotalIn(w, rest) > epsilon && 1.0 - maximum - TotalIn(w, tiny) > epsilon
  {
    hide TotalIn;
    RemainingOfOne(w, {o}, tiny, maximum, o);
  }

  lemma ShareTwice(share: real, x: real, total: real)
    ensures Times(Times(share, x), total) == Times(x, Times(share, total))
  {
  }

  /** Without redistribution the cap is set and nothing else moves; a lone component is its own cap. */
  lemma KeptAt(w: seq<real>, o: int, tiny: set<int>, rest: set<int>, maximum: real, epsilon: real, i: int)
    requires Normalized(w, {o}, tiny, maximum, epsilon) && Free(w, {o}, tiny) == rest
    requires !CanRedistribute(w, {o}, tiny, maximum, epsilon) && 0 <= i < |w| && i != o
    ensures CapPass(w, tiny, maximum, epsilon)[i] == w[i] && CapPass(w, tiny, maximum, epsilon)[o] == maximum
  {
    hide TotalIn, Remaining, CanRedistribute, PartOf;
    assert o in Over(w, tiny, maximum, epsilon);
    assert i in tiny || i in Free(w, {o}, tiny);
  }

  lemma SameProportion(x: real, top: real, y: real, maximum: real, mass: real)
    requires mass != 0.0 && x == y && top == maximum
    ensures Times(x / mass, maximum) == Times(top / mass, y)
  {
    var a, b := x / mass, top / mass;
    QuotientTimes(x, mass);
    QuotientTimes(top, mass);
    assert (a * top) * mass == (b * x) * mass;
    Cancel(mass, a * top, b * x);
  }

  // ----- Blends -----

  /** Moving the prediction of one component moves the blend by that component's weight times the move. */
  lemma BlendResponds(predictions: seq<real>, weights: seq<real>, i: nat, d: real)
    requires |predictions| == |weights| && i < |weights| && NonNegative(weights) && Positive(weights) != {}
    ensures WeightedBlend(predictions[i := predictions[i] + d], weights)
         == Some(WeightedBlend(predictions, weights).value + Times(weights[i], d))
  {
    SumResponds(weights, predictions, Positive(weights), i, d);
    if weights[i] == 0.0 { TimesNegated(0.0, d); }
  }

  lemma {:induction false} SumResponds(w: seq<real>, p: seq<real>, A: set<int>, i: nat, d: real)
    requires |w| == |p| && i < |w|
    ensures TotalIn(Products(w, p[i := p[i] + d]), A)
         == TotalIn(Products(w, p), A) + if i in A then Times(w[i], d) else 0.0
  {
    hide Times;
    var n := |w| - 1;
    var q := p[i := p[i] + d];
    ProductsPrefix(w, p);
    ProductsPrefix(w, q);
    if i < n {
      SumResponds(w[..n], p[..n], A, i, d);
      assert q[..n] == p[..n][i := p[..n][i] + d];
    } else {
      assert q[..n] == p[..n];
      TimesAdd(w[n], p[n], d);
    }
  }

  function Squares(p: seq<real>): (r: seq<real>)
    ensures |r| == |p|
  {
    seq(|p|, i requires 0 <= i < |p| => Squared(p[i]))
  }

  /** The disagreement around the blend is the weighted variance of the predictions. */
  lemma DisagreementIsVariance(predictions: seq<real>, weights: seq<real>)
    requires |predictions| == |weights| && IsDistribution(weights)
    ensures WeightedBlend(predictions, weights).Some?
    ensures var mu := WeightedBlend(predictions, weights).value;
      WeightedDisagreement(predictions, weights, mu)
        == TotalIn(Products(weights, Squares(predictions)), Positive(weights)) - Squared(mu)
  {
    hide TotalIn, Squared, Gap, Products;
    var A := Positive(weights);
    PositivesCarryAll(weights);
    var mu := WeightedBlend(predictions, weights).value;
    GapsExpand(weights, predictions, A, mu);
    VarianceTerms(mu);
    if |A| <= 1 { LoneGap(predictions, weights, mu); }
  }

  lemma VarianceTerms(mu: real)
    ensures Times(mu, mu) == Squared(mu)
  {
  }

  lemma {:induction false} GapsExpand(w: seq<real>, p: seq<real>, A: set<int>, mu: real)
    requires |w| == |p|
    ensures TotalIn(Products(w, SquaredGaps(p, mu)), A)
         == TotalIn(Products(w, Squares(p)), A) - Times(mu, TotalIn(Products(w, p), A))
            - Times(mu, TotalIn(Products(w, p), A)) + Times(Squared(mu), TotalIn(w, A))
  {
    hide Times, Squared, Gap;
    if w == [] {
      ZeroTerms(mu);
    } else {
      var n := |w| - 1;
      GapsExpand(w[..n], p[..n], A, mu);
      ProductsPrefix(w, p);
      ProductsPrefix(w, Squares(p));
      ProductsPrefix(w, SquaredGaps(p, mu));
      assert Squares(p)[..n] == Squares(p[..n]) && SquaredGaps(p, mu)[..n] == SquaredGaps(p[..n], mu);
      TimesAdd(mu, TotalIn(Products(w[..n], p[..n]), A), Times(w[n], p[n]));
      TimesAdd(Squared(mu), TotalIn(w[..n], A), w[n]);
      GapTerm(w[n], p[n], mu);
    }
  }

  lemma ZeroTerms(mu: real)
    ensures Times(mu, 0.0) == 0.0 && Times(Squared(mu), 0.0) == 0.0
  {
  }

  lemma GapTerm(w: real, p: real, mu: real)
    ensures Times(w, Gap(p, mu))
         == Times(w, Squared(p)) - Times(mu, Times(w, p)) - Times(mu, Times(w, p)) + Times(Squared(mu), w)
  {
    assert (p - mu) * (p - mu) == p * p - mu * p - mu * p + mu * mu;
    var a, b, c := p * p, mu * p, mu * mu;
    assert w * (a - b - b + c) == w * a - w * b - w * b + w * c;
    assert w * b == mu * (w * p);
  }

  lemma LoneGap(predictions: seq<real>, weights: seq<real>, mu: real)
    requires |predictions| == |weights| && IsDistribution(weights) && |Positive(weights)| <= 1
    requires WeightedBlend(predictions, weights) == Some(mu)
    ensures TotalIn(Products(weights, SquaredGaps(predictions, mu)), Positive(weights)) == 0.0
  {
    hide TotalIn, Gap, Products;
    var A := Positive(weights);
    PositivesCarryAll(weights);
    HasInt(A);
    var k :| k in A;
    SingletonAgrees(A);
    BlendWithinRange(predictions, weights, predictions[k], predictions[k]);
    var gaps := SquaredGaps(predictions, mu);
    forall i | 0 <= i < |predictions| ensures gaps[i] >= 0.0 && (gaps[i] == 0.0 <==> predictions[i] == mu) {
      GapZero(predictions[i], mu);
    }
    WeightedZero(weights, gaps, A);
  }
}
