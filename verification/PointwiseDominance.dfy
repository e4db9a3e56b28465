/** What dominance on the shared grid says about spots off the grid
    (src/spy_der/candidates/dominance.py with src/spy_der/candidates/payoff.py). */
module PointwiseDominance {
  import opened RealSeqs
  import opened Payoff
  import opened Dominance

  /** The grid points around a spot no higher than the top of the grid. */
  lemma GridBracket(K: set<real>, s: real) returns (lo: real, hi: real)
    requires K != {} && (forall k :: k in K ==> k > 0.0) && 0.0 <= s <= Top(K) + 50.0
    ensures lo in Grid(K) && hi in Grid(K) && 0.0 <= lo <= s <= hi <= Top(K) + 50.0
    ensures forall k :: k in K ==> k <= lo || hi <= k
  {
    var below := set g | g in Grid(K) && g <= s;
    var above := set g | g in Grid(K) && -g <= -s :: -g;
    assert 0.0 in below;
    lo := Top(below);
    assert Top(K) + 50.0 in Grid(K);
    assert -(Top(K) + 50.0) in above;
    hi := -Top(above);
    assert IsTop(above, -hi);
    assert -hi in above;
    forall k | k in K ensures k <= lo || hi <= k {
      assert k in Grid(K);
      if k <= s { assert k in below; } else { assert -k in above; }
    }
  }

  /** Of two chords over the same interval, the one above at both ends is above throughout. */
  lemma ChordAbove(a: real, s: real, b: real, pa: real, ps: real, pb: real, qa: real, qs: real, qb: real)
    requires a <= s <= b && OnChord(a, s, b, pa, ps, pb) && OnChord(a, s, b, qa, qs, qb)
    requires a == b ==> ps == pa && qs == qa
    requires pa >= qa && pb >= qb
    ensures ps >= qs
    ensures ps > qs ==> pa > qa || pb > qb
  {
    var u, v, w := b - s, s - a, b - a;
    if a < b {
      Distribute(u, pa, qa);
      Distribute(v, pb, qb);
      Distribute(w, ps, qs);
      WeightedAbove(u, v, w, pa - qa, ps - qs, pb - qb);
    }
  }

  lemma WeightedAbove(u: real, v: real, w: real, da: real, ds: real, db: real)
    requires u >= 0.0 && v >= 0.0 && w > 0.0 && w * ds == u * da + v * db && da >= 0.0 && db >= 0.0
    ensures ds >= 0.0
    ensures ds > 0.0 ==> da > 0.0 || db > 0.0
  {
    ProductSign(u, da);
    ProductSign(v, db);
    ProductSign(w, ds);
  }

  ghost predicate NotBelowUpTo(a: Candidate, b: Candidate, end: real) {
    forall s :: 0.0 <= s <= end ==> PayoffAt(a, s) >= PayoffAt(b, s)
  }

  ghost predicate AboveSomewhereUpTo(a: Candidate, b: Candidate, end: real) {
    exists s :: 0.0 <= s <= end && PayoffAt(a, s) > PayoffAt(b, s)
  }

  ghost predicate Covers(K: set<real>, c: Candidate) {
    forall l :: l in c.legs ==> l.strike in K
  }

  lemma CoversOwn(U: set<Candidate>, c: Candidate)
    requires c in U
    ensures Covers(StrikeSet(U), c)
  {
  }

  lemma AtSpot(a: Candidate, b: Candidate, K: set<real>, s: real) returns (lo: real, hi: real)
    requires K != {} && (forall k :: k in K ==> k > 0.0) && 0.0 <= s <= Top(K) + 50.0
    requires Covers(K, a) && Covers(K, b) && NotBelow(a, b, Grid(K))
    ensures lo in Grid(K) && hi in Grid(K)
    ensures PayoffAt(a, s) >= PayoffAt(b, s)
    ensures PayoffAt(a, s) > PayoffAt(b, s) ==> PayoffAt(a, lo) > PayoffAt(b, lo) || PayoffAt(a, hi) > PayoffAt(b, hi)
  {
    hide OnChord, TerminalPayoff, Grid;
    lo, hi := GridBracket(K, s);
    Interpolates(a.legs, a.credit, lo, s, hi);
    Interpolates(b.legs, b.credit, lo, s, hi);
    ChordAbove(lo, s, hi, PayoffAt(a, lo), PayoffAt(a, s), PayoffAt(a, hi), PayoffAt(b, lo), PayoffAt(b, s),
               PayoffAt(b, hi));
  }

  lemma GridWithin(K: set<real>)
    requires K != {} && forall k :: k in K ==> k > 0.0
    ensures forall g :: g in Grid(K) ==> 0.0 <= g <= Top(K) + 50.0
  {
  }

  /** The payoff difference has kinks only on the grid, so grid dominance is exactly dominance
      at every real spot from 0 to the top strike plus 50. */
  lemma GridDominanceIsPointwise(a: Candidate, b: Candidate, K: set<real>)
    requires K != {} && (forall k :: k in K ==> k > 0.0) && Covers(K, a) && Covers(K, b)
    ensures Dominates(a, b, Grid(K)) <==>
      a.credit >= b.credit && NotBelowUpTo(a, b, Top(K) + 50.0) && AboveSomewhereUpTo(a, b, Top(K) + 50.0)
  {
    hide PayoffAt, Grid;
    var end := Top(K) + 50.0;
    GridWithin(K);
    if NotBelow(a, b, Grid(K)) {
      forall s | 0.0 <= s <= end ensures PayoffAt(a, s) >= PayoffAt(b, s) {
        var lo, hi := AtSpot(a, b, K, s);
      }
      if s :| 0.0 <= s <= end && PayoffAt(a, s) > PayoffAt(b, s) {
        var lo, hi := AtSpot(a, b, K, s);
        assert SomewhereAbove(a, b, Grid(K));
      }
    }
    if NotBelowUpTo(a, b, end) {
      assert NotBelow(a, b, Grid(K));
    }
    if s :| s in Grid(K) && PayoffAt(a, s) > PayoffAt(b, s) {
      assert AboveSomewhereUpTo(a, b, end);
    }
  }

  ghost predicate NotBelowAnywhere(a: Candidate, b: Candidate) {
    forall s :: s >= 0.0 ==> PayoffAt(a, s) >= PayoffAt(b, s)
  }

  /** The grid is finite. What it misses is the tail: a candidate that is not below another on the
      grid is not below it at any spot at all exactly when it holds at least as many net calls. */
  lemma TailIsDecidedByNetCalls(a: Candidate, b: Candidate, K: set<real>)
    requires K != {} && (forall k :: k in K ==> k > 0.0) && Covers(K, a) && Covers(K, b)
    requires NotBelow(a, b, Grid(K))
    ensures NotBelowAnywhere(a, b) <==> NetCallQuantity(a.legs) >= NetCallQuantity(b.legs)
  {
    hide TerminalPayoff, Rise, NetCallQuantity, Grid;
    var end := Top(K) + 50.0;
    var m, m' := NetCallQuantity(a.legs), NetCallQuantity(b.legs);
    var gap := PayoffAt(a, end) - PayoffAt(b, end);
    var lo, hi := AtSpot(a, b, K, end);
    if m >= m' {
      forall s | s >= 0.0 ensures PayoffAt(a, s) >= PayoffAt(b, s) {
        if s <= end {
          var lo, hi := AtSpot(a, b, K, s);
        } else {
          GapPast(a, b, end, s - end);
          RiseSign(m - m', s - end);
          assert end + (s - end) == s;
        }
      }
    } else {
      GapPast(a, b, end, gap + 1.0);
      RiseSign(m - m', gap + 1.0);
      assert PayoffAt(a, end + (gap + 1.0)) < PayoffAt(b, end + (gap + 1.0));
      assert end + (gap + 1.0) >= 0.0;
    }
  }

  lemma GapPast(a: Candidate, b: Candidate, end: real, x: real)
    requires x >= 0.0
    requires forall l :: l in a.legs || l in b.legs ==> l.strike <= end
    ensures PayoffAt(a, end + x) - PayoffAt(b, end + x)
         == PayoffAt(a, end) - PayoffAt(b, end) + Rise(NetCallQuantity(a.legs) - NetCallQuantity(b.legs), x)
  {
    hide TerminalPayoff, Rise, NetCallQuantity;
    TailLine(a.legs, a.credit, end, x);
    TailLine(b.legs, b.credit, end, x);
    RiseDifference(NetCallQuantity(a.legs), NetCallQuantity(b.legs), x);
  }

  lemma RiseDifference(m: int, m': int, x: real)
    ensures Rise(m - m', x) == Rise(m, x) - Rise(m', x)
  {
  }

  /** No survivor is even as good as another at equal-or-better credit, unless they pay the same at
      every spot up to the top strike plus 50. */
  lemma SurvivorsIncomparableAtEverySpot(S: set<Candidate>, a: Candidate, b: Candidate)
    requires a in Pruned(S) && b in Pruned(S) && a.credit >= b.credit
    requires var K := StrikeSet(Maximal(S, QuoteBeats)); K != {} ==> NotBelowUpTo(a, b, Top(K) + 50.0)
    ensures var K := StrikeSet(Maximal(S, QuoteBeats));
      K != {} && forall s :: 0.0 <= s <= Top(K) + 50.0 ==> PayoffAt(a, s) == PayoffAt(b, s)
  {
    hide Dominates, Grid, PayoffAt;
    var U := Maximal(S, QuoteBeats);
    PrunedWithin(S);
    StrikesPositive(U);
    CoversOwn(U, a);
    CoversOwn(U, b);
    GridDominanceIsPointwise(a, b, StrikeSet(U));
    SurvivorsIncomparable(S, a, b);
  }

  // ----- Idempotence -----

  /** One survivor dominates another on the smaller grid of a second pruning, for want of the tail:
      it holds fewer net calls. */
  ghost predicate Overtakes(P: set<Candidate>, a: Candidate, b: Candidate) {
    && a in P && b in P && Dominates(a, b, Grid(StrikeSet(P)))
    && NetCallQuantity(a.legs) < NetCallQuantity(b.legs)
  }

  /** Pruning again changes nothing exactly when no survivor overtakes another. */
  lemma IdempotentExactly(S: set<Candidate>)
    ensures Pruned(Pruned(S)) == Pruned(S) <==> forall a, b :: !Overtakes(Pruned(S), a, b)
  {
    hide Dominates, Grid, NetCallQuantity;
    var unique, P := Maximal(S, QuoteBeats), Pruned(S);
    MaximalOfSubset(S, P, QuoteBeats);
    MaximalOfSubset(unique, P, CreditBeats);
    var order := DominatesOn(Grid(StrikeSet(P)));
    forall a, b | a in P && b in P ensures order(a, b) <==> Overtakes(P, a, b) {
      assert order(a, b) == Dominates(a, b, Grid(StrikeSet(P)));
      if order(a, b) { OnlyShorterTailsOvertake(S, a, b); }
    }
    if a, b :| Overtakes(P, a, b) { assert b !in Maximal(P, order); }
  }

  /** A survivor holding as many net calls as another would have dominated it on the larger grid already. */
  lemma OnlyShorterTailsOvertake(S: set<Candidate>, a: Candidate, b: Candidate)
    requires a in Pruned(S) && b in Pruned(S) && Dominates(a, b, Grid(StrikeSet(Pruned(S))))
    ensures NetCallQuantity(a.legs) < NetCallQuantity(b.legs)
  {
    hide Dominates, Grid, PayoffAt, NetCallQuantity, StrikeSet, Pruned, Maximal;
    if NetCallQuantity(a.legs) >= NetCallQuantity(b.legs) {
      var P, U := Pruned(S), Maximal(S, QuoteBeats);
      var K, K' := StrikeSet(U), StrikeSet(P);
      PrunedWithin(S);
      StrikesPositive(P);
      CoversOwn(P, a);
      CoversOwn(P, b);
      GridDominanceIsPointwise(a, b, K');
      DominatesIsNotBelow(a, b, Grid(K'));
      TailIsDecidedByNetCalls(a, b, K');
      StrikesPositive(U);
      CoversOwn(U, a);
      CoversOwn(U, b);
      TopOfLarger(K', K);
      GridDominanceIsPointwise(a, b, K);
      SurvivorsIncomparable(S, a, b);
    }
  }

  lemma DominatesIsNotBelow(a: Candidate, b: Candidate, grid: set<real>)
    requires Dominates(a, b, grid)
    ensures NotBelow(a, b, grid)
  {
  }

  lemma TopOfLarger(K': set<real>, K: set<real>)
    requires K' <= K && K' != {} && K != {}
    ensures Top(K') <= Top(K)
  {
  }

  /** Known before the call: when all candidates hold the same net calls, pruning is idempotent. */
  lemma EqualNetCallsIdempotent(S: set<Candidate>)
    requires forall a, b :: a in S && b in S ==> NetCallQuantity(a.legs) == NetCallQuantity(b.legs)
    ensures Pruned(Pruned(S)) == Pruned(S)
  {
    hide Dominates, Grid, NetCallQuantity;
    PrunedWithin(S);
    IdempotentExactly(S);
  }

  ghost predicate HoldsTopStrike(S: set<Candidate>) {
    exists k :: k in StrikeSet(Pruned(S)) && IsTop(StrikeSet(Maximal(S, QuoteBeats)), k)
  }

  /** Pruning again removes nothing either as long as some survivor still holds the top strike. */
  lemma PruningIsIdempotent(S: set<Candidate>)
    requires HoldsTopStrike(S)
    ensures Pruned(Pruned(S)) == Pruned(S)
  {
    hide Dominates, Grid, IsTop, Pruned, NetCallQuantity;
    IdempotentExactly(S);
    forall a, b | a in Pruned(S) && b in Pruned(S) ensures !Overtakes(Pruned(S), a, b) {
      StillIncomparable(S, a, b);
    }
  }

  lemma MaximalOfSubset(S: set<Candidate>, P: set<Candidate>, beats: (Candidate, Candidate) -> bool)
    requires P <= Maximal(S, beats)
    ensures Maximal(P, beats) == P
  {
  }

  lemma StillIncomparable(S: set<Candidate>, a: Candidate, b: Candidate)
    requires HoldsTopStrike(S) && a in Pruned(S) && b in Pruned(S)
    ensures !Dominates(a, b, Grid(StrikeSet(Pruned(S))))
  {
    hide Dominates, Grid;
    var unique, P := Maximal(S, QuoteBeats), Pruned(S);
    SurvivorsIncomparable(S, a, b);
    PrunedWithin(S);
    SmallerGrid(StrikeSet(P), StrikeSet(unique));
    hide Pruned, Maximal, IsTop;
    SameTopSameDominance(a, b, P, unique);
  }

  lemma PrunedWithin(S: set<Candidate>)
    ensures Pruned(S) <= Maximal(S, QuoteBeats)
    ensures StrikeSet(Pruned(S)) <= StrikeSet(Maximal(S, QuoteBeats))
  {
  }

  lemma SameTopSameDominance(a: Candidate, b: Candidate, U: set<Candidate>, U': set<Candidate>)
    requires a in U && b in U && a in U' && b in U'
    requires StrikeSet(U) != {} && StrikeSet(U') != {} && Top(StrikeSet(U)) == Top(StrikeSet(U'))
    ensures Dominates(a, b, Grid(StrikeSet(U))) <==> Dominates(a, b, Grid(StrikeSet(U')))
  {
    hide Dominates, Grid;
    StrikesPositive(U);
    StrikesPositive(U');
    hide StrikeSet;
    CoversOwn(U, a);
    CoversOwn(U, b);
    CoversOwn(U', a);
    CoversOwn(U', b);
    GridDominanceIsPointwise(a, b, StrikeSet(U));
    GridDominanceIsPointwise(a, b, StrikeSet(U'));
  }

  lemma SmallerGrid(K': set<real>, K: set<real>)
    requires K' <= K && exists k :: k in K' && IsTop(K, k)
    ensures K' != {} && K != {} && Top(K') == Top(K)
  {
  }

  // ----- Where the finite grid goes wrong -----

  function BuiltCandidate(id: int, legs: seq<Leg>, credit: real): Candidate
    requires legs != []
  {
    CandidateData(id, id, Digest(legs, credit), credit, 1.0, legs)
  }

  function Digest(legs: seq<Leg>, credit: real): (h: PayoffHash)
    ensures h.credit == credit
  {
    PayoffHash(credit, EvaluationSpots(legs), Payoffs(legs, credit, EvaluationSpots(legs)))
  }

  /** Cash collected at entry: short legs add their mid price, long legs subtract it. */
  function EntryCredit(legs: seq<Leg>, mids: seq<real>): real
    requires |mids| == |legs|
  {
    if legs == [] then 0.0
    else
      var n := |legs| - 1;
      EntryCredit(legs[..n], mids[..n]) - legs[n].quantity as real * mids[n]
  }

  /** A put spread sold for 0.3, and two calls with premiums of 51 and 60, around a spot of 600. */
  function PutSpread(): Candidate { BuiltCandidate(0, [LegData(Put, 596.0, 1), LegData(Put, 597.0, -1)], 0.3) }

  function LongCall(): Candidate { BuiltCandidate(1, [LegData(Call, 600.0, 1)], -51.0) }

  function HighCall(): Candidate { BuiltCandidate(2, [LegData(Call, 606.0, 1)], -60.0) }

  lemma OneLegPayoff(leg: Leg, credit: real, s: real)
    ensures TerminalPayoff([leg], credit, s) == credit + LegPayoff(leg, s)
  {
    assert [leg][..0] == [];
    assert TerminalPayoff([leg], credit, s) == TerminalPayoff([leg][..0], credit, s) + LegPayoff(leg, s);
  }

  lemma TwoLegPayoff(leg: Leg, leg': Leg, credit: real, s: real)
    ensures TerminalPayoff([leg, leg'], credit, s) == credit + LegPayoff(leg, s) + LegPayoff(leg', s)
  {
    hide LegPayoff;
    assert [leg, leg'][..1] == [leg];
    OneLegPayoff(leg, credit, s);
  }

  lemma SamplePayoffs(s: real)
    ensures PayoffAt(PutSpread(), s) == 0.3 + Max(596.0 - s, 0.0) - Max(597.0 - s, 0.0)
    ensures PayoffAt(LongCall(), s) == -51.0 + Max(s - 600.0, 0.0)
    ensures PayoffAt(HighCall(), s) == -60.0 + Max(s - 606.0, 0.0)
  {
    hide Digest, TerminalPayoff;
    TwoLegPayoff(LegData(Put, 596.0, 1), LegData(Put, 597.0, -1), 0.3, s);
    OneLegPayoff(LegData(Call, 600.0, 1), -51.0, s);
    OneLegPayoff(LegData(Call, 606.0, 1), -60.0, s);
  }

  /** The three credits come from mid prices, as the factory computes them. */
  lemma SampleMids()
    ensures PutSpread().credit == EntryCredit(PutSpread().legs, [0.7, 1.0])
    ensures LongCall().credit == EntryCredit(LongCall().legs, [51.0])
    ensures HighCall().credit == EntryCredit(HighCall().legs, [60.0])
  {
    hide Digest, EntryCredit;
    TwoLegCredit(LegData(Put, 596.0, 1), LegData(Put, 597.0, -1), 0.7, 1.0);
    OneLegCredit(LegData(Call, 600.0, 1), 51.0);
    OneLegCredit(LegData(Call, 606.0, 1), 60.0);
  }

  lemma OneLegCredit(leg: Leg, mid: real)
    ensures EntryCredit([leg], [mid]) == -(leg.quantity as real * mid)
  {
    assert [leg][..0] == [] && [mid][..0] == [];
    assert EntryCredit([leg], [mid]) == EntryCredit([leg][..0], [mid][..0]) - leg.quantity as real * mid;
  }

  lemma TwoLegCredit(leg: Leg, leg': Leg, mid: real, mid': real)
    ensures EntryCredit([leg, leg'], [mid, mid']) == -(leg.quantity as real * mid) - leg'.quantity as real * mid'
  {
    assert [leg, leg'][..1] == [leg] && [mid, mid'][..1] == [mid];
    OneLegCredit(leg, mid);
    assert EntryCredit([leg, leg'], [mid, mid']) == EntryCredit([leg], [mid]) - leg'.quantity as real * mid';
  }

  lemma BuiltByTheProver(id: int, legs: seq<Leg>, credit: real)
    requires legs != [] && NetCallQuantity(legs) >= 0
    ensures ProverBuilt(BuiltCandidate(id, legs, credit))
  {
    hide EvaluationSpots, Payoffs, MinOf, MaxOf, NetCallQuantity;
    MaximumLossIsExact(legs, credit);
  }

  lemma SamplesProverBuilt(c: Candidate)
    requires c in {PutSpread(), LongCall(), HighCall()}
    ensures ProverBuilt(c)
  {
    hide Digest, ProverBuilt;
    SampleNetCalls();
    BuiltByTheProver(0, PutSpread().legs, 0.3);
    BuiltByTheProver(1, LongCall().legs, -51.0);
    BuiltByTheProver(2, HighCall().legs, -60.0);
  }

  lemma SampleNetCalls()
    ensures NetCallQuantity(PutSpread().legs) == 0
    ensures NetCallQuantity(LongCall().legs) == 1 == NetCallQuantity(HighCall().legs)
  {
    hide Digest;
    var legs := PutSpread().legs;
    assert legs[..1] == [LegData(Put, 596.0, 1)] && legs[..1][..0] == [];
    assert NetCallQuantity(legs) == NetCallQuantity(legs[..1]) == NetCallQuantity(legs[..1][..0]);
  }

  lemma SampleGrid(S: set<Candidate>, K: set<real>, top: real)
    requires StrikeSet(S) == K && IsTop(K, top)
    ensures Grid(StrikeSet(S)) == {0.0} + K + {top + 50.0}
  {
  }

  lemma PrunedWhenDistinct(S: set<Candidate>, P: set<Candidate>, grid: set<real>)
    requires forall c, d :: c in S && d in S && c != d ==>
      c.geometryHash != d.geometryHash && c.payoffHash != d.payoffHash
    requires grid == Grid(StrikeSet(S)) && P <= S
    requires forall c :: c in S ==> (c in P <==> forall d :: d in S ==> !Dominates(d, c, grid))
    ensures Pruned(S) == P
  {
    hide Dominates, Grid;
    assert Maximal(S, QuoteBeats) == S;
    assert Maximal(S, CreditBeats) == S;
    forall c | c in S ensures c in P <==> c in Maximal(S, DominatesOn(grid)) {
      forall d | d in S ensures DominatesOn(grid)(d, c) == Dominates(d, c, grid) {}
    }
  }

  lemma SpreadDominatesHighCall(grid: set<real>)
    requires 0.0 in grid && forall s :: s in grid ==> 0.0 <= s <= 656.0
    ensures Dominates(PutSpread(), HighCall(), grid)
  {
    hide PayoffAt, Digest;
    forall s | s in grid ensures PayoffAt(PutSpread(), s) > PayoffAt(HighCall(), s) { SamplePayoffs(s); }
  }

  lemma SpreadDominatesCallUpTo(grid: set<real>, end: real)
    requires 0.0 in grid && end in grid && forall s :: s in grid ==> 0.0 <= s <= end
    ensures Dominates(PutSpread(), LongCall(), grid) <==> end <= 651.3
  {
    hide PayoffAt, Digest;
    var a, b := PutSpread(), LongCall();
    forall s | s in grid ensures PayoffAt(a, s) >= PayoffAt(b, s) <==> s <= 651.3 { SamplePayoffs(s); }
    SamplePayoffs(0.0);
    assert PayoffAt(a, 0.0) > PayoffAt(b, 0.0);
  }

  lemma NeverByCheaper(a: Candidate, b: Candidate, grid: set<real>)
    requires a.credit < b.credit || a == b
    ensures !Dominates(a, b, grid)
  {
    hide PayoffAt;
  }

  lemma SampleStrikes()
    ensures StrikeSet({PutSpread(), LongCall(), HighCall()}) == {596.0, 597.0, 600.0, 606.0}
    ensures StrikeSet({PutSpread(), LongCall()}) == {596.0, 597.0, 600.0}
  {
    hide Digest;
    var a, b, c := PutSpread(), LongCall(), HighCall();
    assert a.legs[0] in a.legs && a.legs[1] in a.legs && b.legs[0] in b.legs && c.legs[0] in c.legs;
  }

  lemma SampleCredits()
    ensures HighCall().credit < LongCall().credit < PutSpread().credit
    ensures var S := {PutSpread(), LongCall(), HighCall()};
      forall c, d :: c in S && d in S && c != d ==> c.geometryHash != d.geometryHash && c.payoffHash != d.payoffHash
  {
    hide PayoffAt, Digest;
  }

  lemma FirstPruning()
    ensures Pruned({PutSpread(), LongCall(), HighCall()}) == {PutSpread(), LongCall()}
  {
    hide PayoffAt, Grid, Dominates, StrikeSet, Pruned, PutSpread, LongCall, HighCall;
    SampleCredits();
    var a, b, c := PutSpread(), LongCall(), HighCall();
    var S := {a, b, c};
    SampleStrikes();
    SampleGrid(S, {596.0, 597.0, 600.0, 606.0}, 606.0);
    var grid := Grid(StrikeSet(S));
    SpreadDominatesHighCall(grid);
    SpreadDominatesCallUpTo(grid, 656.0);
    forall d | d in S ensures !Dominates(d, a, grid) && !Dominates(d, b, grid) {
      if d != a || d == b { NeverByCheaper(d, b, grid); }
      NeverByCheaper(d, a, grid);
    }
    PrunedWhenDistinct(S, {a, b}, grid);
  }

  lemma SecondPruning()
    ensures Pruned({PutSpread(), LongCall()}) == {PutSpread()}
  {
    hide PayoffAt, Grid, Dominates, StrikeSet, Pruned, PutSpread, LongCall, HighCall;
    SampleCredits();
    var a, b := PutSpread(), LongCall();
    var S := {a, b};
    SampleStrikes();
    SampleGrid(S, {596.0, 597.0, 600.0}, 600.0);
    var grid := Grid(StrikeSet(S));
    SpreadDominatesCallUpTo(grid, 650.0);
    NeverByCheaper(a, a, grid);
    NeverByCheaper(b, a, grid);
    PrunedWhenDistinct(S, {a}, grid);
  }

  /** With the top strike pruned away the grid shrinks, and pruning again removes the long call,
      although it pays more than the survivor at spot 656: neither idempotence nor dominance
      beyond the grid holds without their hypotheses. */
  lemma TopStrikeMatters()
    ensures var S := {PutSpread(), LongCall(), HighCall()};
      && IdsNameGeometry(S) && QuotesSettled(S) && (forall c :: c in S ==> ProverBuilt(c))
      && Pruned(S) == {PutSpread(), LongCall()}
      && Pruned(Pruned(S)) == {PutSpread()}
      && Overtakes(Pruned(S), PutSpread(), LongCall())
      && PayoffAt(LongCall(), 656.0) > PayoffAt(PutSpread(), 656.0)
  {
    hide *;
    forall c | c in {PutSpread(), LongCall(), HighCall()} ensures ProverBuilt(c) { SamplesProverBuilt(c); }
    FirstPruning();
    SecondPruning();
    SpreadOvertakes();
    SampleIds();
    SamplePayoffs(656.0);
    assert Max(656.0 - 600.0, 0.0) == 56.0 by { MaxOfLarger(56.0, 0.0); }
    assert Max(596.0 - 656.0, 0.0) == 0.0 == Max(597.0 - 656.0, 0.0) by {
      MaxOfLarger(0.0, -60.0);
      MaxOfLarger(0.0, -59.0);
    }
  }

  lemma MaxOfLarger(x: real, y: real)
    requires x >= y
    ensures Max(x, y) == x == Max(y, x)
  {
  }

  lemma SampleIds()
    ensures var S := {PutSpread(), LongCall(), HighCall()};
      IdsNameGeometry(S) && QuotesSettled(S)
  {
    hide PayoffAt, Digest;
  }

  lemma SpreadOvertakes()
    ensures Overtakes({PutSpread(), LongCall()}, PutSpread(), LongCall())
  {
    hide PayoffAt, Grid, Dominates, StrikeSet, NetCallQuantity, PutSpread, LongCall, HighCall;
    SampleStrikes();
    SampleGrid({PutSpread(), LongCall()}, {596.0, 597.0, 600.0}, 600.0);
    SpreadDominatesCallUpTo(Grid(StrikeSet({PutSpread(), LongCall()})), 650.0);
    SampleNetCalls();
  }
}
