/** Deterministic pre-ranking pruning of a candidate universe
    (src/spy_der/candidates/dominance.py). */
module Dominance {
  import opened Options
  import opened RealSeqs
  import opened Payoff

  /** Ids and geometry hashes are opaque; ids only need their order. */
  datatype CandidateData = CandidateData(
    id: int,
    geometryHash: int,
    payoffHash: PayoffHash,
    credit: real,
    quality: real,
    legs: seq<Leg>)

  /** The contract layer admits no candidate without legs. */
  type Candidate = c: CandidateData | c.legs != []
    witness CandidateData(0, 0, PayoffHash(0.0, [], []), 0.0, 0.0, [LegData(Call, 1.0, 1)])

  ghost function Elements(s: seq<Candidate>): set<Candidate> {
    set c | c in s
  }

  /** An id hashes snapshot, version and geometry, so within a snapshot equal ids mean equal geometry. */
  ghost predicate IdsNameGeometry(S: set<Candidate>) {
    forall a, b :: a in S && b in S && a.id == b.id ==> a.geometryHash == b.geometryHash
  }

  // ----- Maximal elements of a strict order -----

  ghost function Maximal(S: set<Candidate>, beats: (Candidate, Candidate) -> bool): set<Candidate> {
    set c | c in S && forall d :: d in S ==> !beats(d, c)
  }

  ghost predicate StrictOrder(S: set<Candidate>, beats: (Candidate, Candidate) -> bool) {
    && (forall a :: a in S ==> !beats(a, a))
    && (forall a, b, c :: a in S && b in S && c in S && beats(a, b) && beats(b, c) ==> beats(a, c))
  }

  /** In a finite set every element is maximal or beaten by a maximal one. */
  lemma {:induction false} MaximalAbove(S: set<Candidate>, beats: (Candidate, Candidate) -> bool, x: Candidate)
    returns (m: Candidate)
    requires x in S && StrictOrder(S, beats)
    ensures m in Maximal(S, beats) && (m == x || beats(m, x))
    decreases set d | d in S && beats(d, x)
  {
    if d :| d in S && beats(d, x) {
      var above, above' := set y | y in S && beats(y, x), set y | y in S && beats(y, d);
      assert above' <= above && d in above && d !in above';
      m := MaximalAbove(S, beats, d);
    } else {
      m := x;
    }
  }

  // ----- The three orders -----

  /** Same geometry, better quotes: higher quality, then lower id. */
  predicate QuoteBeats(d: Candidate, c: Candidate) {
    d.geometryHash == c.geometryHash && (d.quality > c.quality || (d.quality == c.quality && d.id < c.id))
  }

  /** Same payoff hash, better cost: higher entry credit, then lower id. */
  predicate CreditBeats(d: Candidate, c: Candidate) {
    d.payoffHash == c.payoffHash && (d.credit > c.credit || (d.credit == c.credit && d.id < c.id))
  }

  function PayoffAt(c: Candidate, spot: real): real {
    TerminalPayoff(c.legs, c.credit, spot)
  }

  ghost predicate NotBelow(a: Candidate, b: Candidate, grid: set<real>) {
    forall s :: s in grid ==> PayoffAt(a, s) >= PayoffAt(b, s)
  }

  ghost predicate SomewhereAbove(a: Candidate, b: Candidate, grid: set<real>) {
    exists s :: s in grid && PayoffAt(a, s) > PayoffAt(b, s)
  }

  /** Equal-or-better entry credit and strict payoff dominance on a grid of spots. */
  ghost predicate Dominates(a: Candidate, b: Candidate, grid: set<real>) {
    a.credit >= b.credit && NotBelow(a, b, grid) && SomewhereAbove(a, b, grid)
  }

  ghost function DominatesOn(grid: set<real>): (Candidate, Candidate) -> bool {
    (a: Candidate, b: Candidate) => Dominates(a, b, grid)
  }

  // ----- The shared grid -----

  ghost function StrikeSet(S: set<Candidate>): set<real> {
    set c, l | c in S && l in c.legs :: l.strike
  }

  lemma StrikesPositive(S: set<Candidate>)
    ensures forall k :: k in StrikeSet(S) ==> k > 0.0
    ensures S != {} ==> StrikeSet(S) != {}
  {
    if c :| c in S {
      assert c.legs[0] in c.legs;
      assert c.legs[0].strike in StrikeSet(S);
    }
  }

  ghost predicate IsTop(K: set<real>, top: real) {
    top in K && forall k :: k in K ==> k <= top
  }

  ghost function Top(K: set<real>): (top: real)
    requires K != {}
    ensures IsTop(K, top)
  {
    HasReal(K);
    var x :| x in K;
    if K == {x} then x
    else
      assert K == {x} + (K - {x});
      assert K - {x} != {};
      Max(x, Top(K - {x}))
  }

  /** 0, every strike in the universe, and the top strike plus 50. */
  ghost function Grid(K: set<real>): set<real> {
    if K == {} then {0.0} else {0.0} + K + {Top(K) + 50.0}
  }

  /** What stages 2 and 3 leave of one candidate per geometry, on the grid fixed after stage 1. */
  ghost function PrunedUnique(unique: set<Candidate>): set<Candidate> {
    Maximal(Maximal(unique, CreditBeats), DominatesOn(Grid(StrikeSet(unique))))
  }

  ghost function Pruned(S: set<Candidate>): set<Candidate> {
    PrunedUnique(Maximal(S, QuoteBeats))
  }

  /** No two different quotes of one geometry tie for the best: same quality and same id. */
  ghost predicate QuotesSettled(S: set<Candidate>) {
    BestSettled(S, GeometryOf, QuoteBeats)
  }

  ghost predicate BestSettled<K>(S: set<Candidate>, key: Candidate -> K, beats: (Candidate, Candidate) -> bool) {
    forall a, b :: a in Maximal(S, beats) && b in Maximal(S, beats) && key(a) == key(b) ==> a == b
  }

  // ----- Stages 1 and 2: the best candidate per key -----

  function GeometryOf(c: Candidate): int { c.geometryHash }

  function PayoffOf(c: Candidate): PayoffHash { c.payoffHash }

  /** beats compares the candidates that share a key by some score, and no others. */
  ghost predicate RanksByScore<K>(key: Candidate -> K, beats: (Candidate, Candidate) -> bool) {
    && (forall a :: !beats(a, a))
    && (forall a, b :: beats(a, b) ==> key(a) == key(b))
    && (forall a, b, c :: beats(a, b) && beats(b, c) ==> beats(a, c))
    && (forall a, b, c :: beats(a, b) && key(c) == key(a) ==> beats(a, c) || beats(c, b))
  }

  lemma OrdersRankByScore()
    ensures RanksByScore(GeometryOf, QuoteBeats)
    ensures RanksByScore(PayoffOf, CreditBeats)
  {
  }

  /** The first candidate listed for its key that nothing listed beats. */
  ghost predicate IsFirstBest<K>(cands: seq<Candidate>, p: int, key: Candidate -> K,
                                 beats: (Candidate, Candidate) -> bool) {
    && 0 <= p < |cands|
    && (forall q :: 0 <= q < |cands| ==> !beats(cands[q], cands[p]))
    && (forall q :: 0 <= q < p && key(cands[q]) == key(cands[p]) ==> beats(cands[p], cands[q]))
  }

  ghost function FirstBest<K>(cands: seq<Candidate>, key: Candidate -> K,
                              beats: (Candidate, Candidate) -> bool): set<Candidate> {
    set p | 0 <= p < |cands| && IsFirstBest(cands, p, key, beats) :: cands[p]
  }

  /** The insertion-ordered dictionary that replaces the candidate of a key only by one that beats it:
      it keeps, for each key listed, the first of the best. */
  method KeepBest<K(==)>(cands: seq<Candidate>, key: Candidate -> K, beats: (Candidate, Candidate) -> bool)
    returns (unique: seq<Candidate>)
    requires RanksByScore(key, beats)
    ensures Elements(unique) == FirstBest(cands, key, beats)
    ensures forall i, j :: 0 <= i < j < |unique| ==> key(unique[i]) != key(unique[j])
    ensures forall c :: c in cands ==> exists d :: d in unique && key(d) == key(c)
  {
    hide RanksByScore, KeptFor, FirstBest;
    var byKey: map<K, Candidate> := map[];
    var order: seq<K> := [];
    ghost var at: map<K, int> := map[];
    for i := 0 to |cands|
      invariant forall k :: k in order <==> k in byKey
      invariant byKey.Keys == at.Keys
      invariant forall p, q :: 0 <= p < q < |order| ==> order[p] != order[q]
      invariant forall k :: k in byKey ==> KeptFor(cands[..i], k, at[k], byKey[k], key, beats)
      invariant forall p :: 0 <= p < i ==> key(cands[p]) in byKey
    {
      var cand := cands[i];
      var k := key(cand);
      assert cands[..i + 1] == cands[..i] + [cand];
      forall j | j in byKey && (j != k || !beats(cand, byKey[k]))
        ensures KeptFor(cands[..i + 1], j, at[j], byKey[j], key, beats)
      {
        StaysKept(cands[..i], cand, j, at[j], byKey[j], key, beats);
      }
      if k !in byKey {
        FirstOfKey(cands[..i], cand, key, beats);
        order := order + [k];
        byKey, at := byKey[k := cand], at[k := i];
      } else if beats(cand, byKey[k]) {
        Replaces(cands[..i], cand, at[k], byKey[k], key, beats);
        byKey, at := byKey[k := cand], at[k := i];
      }
    }
    assert cands[..|cands|] == cands;
    assert forall i :: 0 <= i < |order| ==> order[i] in order && order[i] in byKey;
    unique := seq(|order|, i requires 0 <= i < |order| => byKey[order[i]]);
    KeptAreFirstBest(cands, byKey, at, key, beats);
    forall k | k in byKey ensures byKey[k] in unique && key(byKey[k]) == k {
      var p :| 0 <= p < |order| && order[p] == k;
      assert unique[p] == byKey[k];
      KeptHasKey(cands, k, at[k], byKey[k], key, beats);
    }
    assert forall c :: c in unique <==> exists k :: k in byKey && byKey[k] == c;
  }

  lemma KeptHasKey<K>(cands: seq<Candidate>, k: K, p: int, c: Candidate, key: Candidate -> K,
                      beats: (Candidate, Candidate) -> bool)
    requires KeptFor(cands, k, p, c, key, beats)
    ensures key(c) == k
  {
  }

  lemma StaysKept<K>(cands: seq<Candidate>, next: Candidate, k: K, p: int, c: Candidate, key: Candidate -> K,
                     beats: (Candidate, Candidate) -> bool)
    requires RanksByScore(key, beats) && KeptFor(cands, k, p, c, key, beats)
    requires key(next) != k || !beats(next, c)
    ensures KeptFor(cands + [next], k, p, c, key, beats)
  {
  }

  lemma FirstOfKey<K>(cands: seq<Candidate>, next: Candidate, key: Candidate -> K,
                      beats: (Candidate, Candidate) -> bool)
    requires RanksByScore(key, beats) && forall p :: 0 <= p < |cands| ==> key(cands[p]) != key(next)
    ensures KeptFor(cands + [next], key(next), |cands|, next, key, beats)
  {
  }

  lemma Replaces<K>(cands: seq<Candidate>, next: Candidate, p: int, c: Candidate, key: Candidate -> K,
                    beats: (Candidate, Candidate) -> bool)
    requires RanksByScore(key, beats) && KeptFor(cands, key(next), p, c, key, beats) && beats(next, c)
    ensures KeptFor(cands + [next], key(next), |cands|, next, key, beats)
  {
    forall q | 0 <= q < |cands| && key(cands[q]) == key(next) ensures beats(next, cands[q]) && !beats(cands[q], next) {
      assert !beats(cands[q], c);
    }
  }

  ghost predicate KeptFor<K>(cands: seq<Candidate>, k: K, p: int, c: Candidate, key: Candidate -> K,
                             beats: (Candidate, Candidate) -> bool) {
    key(c) == k && IsFirstBest(cands, p, key, beats) && cands[p] == c
  }

  lemma KeptAreFirstBest<K>(cands: seq<Candidate>, byKey: map<K, Candidate>, at: map<K, int>, key: Candidate -> K,
                            beats: (Candidate, Candidate) -> bool)
    requires RanksByScore(key, beats) && byKey.Keys == at.Keys
    requires forall k :: k in byKey ==> KeptFor(cands, k, at[k], byKey[k], key, beats)
    requires forall c :: c in cands ==> key(c) in byKey
    ensures forall c :: c in FirstBest(cands, key, beats) <==> exists k :: k in byKey && byKey[k] == c
  {
    forall c | c in FirstBest(cands, key, beats) ensures key(c) in byKey && byKey[key(c)] == c {
      var p :| 0 <= p < |cands| && IsFirstBest(cands, p, key, beats) && cands[p] == c;
      var q := at[key(c)];
      assert KeptFor(cands, key(c), q, byKey[key(c)], key, beats);
      assert p == q;
    }
  }

  /** When no two best candidates of one key tie, the first of the best is the only one. */
  lemma FirstBestIsMaximal<K>(cands: seq<Candidate>, key: Candidate -> K, beats: (Candidate, Candidate) -> bool)
    requires RanksByScore(key, beats) && BestSettled(Elements(cands), key, beats)
    ensures FirstBest(cands, key, beats) == Maximal(Elements(cands), beats)
  {
    hide RanksByScore;
    var S := Elements(cands);
    forall c | c in Maximal(S, beats) ensures c in FirstBest(cands, key, beats) {
      var p := FirstIndex(cands, c);
      forall q | 0 <= q < p && key(cands[q]) == key(c) ensures beats(c, cands[q]) {
        assert cands[q] in cands[..p];
        OthersBeaten(S, key, beats, c, cands[q]);
      }
      assert forall q :: 0 <= q < |cands| ==> cands[q] in S;
      assert IsFirstBest(cands, p, key, beats);
    }
    forall c | c in FirstBest(cands, key, beats) ensures c in Maximal(S, beats) {
      var p :| 0 <= p < |cands| && IsFirstBest(cands, p, key, beats) && cands[p] == c;
    }
  }

  /** What is not best for its key is beaten by what is. */
  lemma OthersBeaten<K>(S: set<Candidate>, key: Candidate -> K, beats: (Candidate, Candidate) -> bool, c: Candidate,
                        other: Candidate)
    requires RanksByScore(key, beats) && BestSettled(S, key, beats)
    requires c in Maximal(S, beats) && other in S && key(other) == key(c) && other != c
    ensures beats(c, other)
  {
    assert other !in Maximal(S, beats);
    var e :| e in S && beats(e, other);
    assert beats(e, c) || beats(c, other);
  }

  /** Stage 1 and 2 ignore the listing order exactly when no two best candidates of one key tie. */
  lemma FirstBestIgnoresOrderExactly<K>(cands: seq<Candidate>, key: Candidate -> K,
                                        beats: (Candidate, Candidate) -> bool)
    requires RanksByScore(key, beats)
    ensures (forall t: seq<Candidate> :: multiset(t) == multiset(cands) ==>
              FirstBest(t, key, beats) == FirstBest(cands, key, beats))
        <==> BestSettled(Elements(cands), key, beats)
  {
    hide RanksByScore, FirstBest;
    if BestSettled(Elements(cands), key, beats) {
      FirstBestIsMaximal(cands, key, beats);
      forall t: seq<Candidate> | multiset(t) == multiset(cands)
        ensures FirstBest(t, key, beats) == FirstBest(cands, key, beats)
      {
        SameElements(t, cands);
        FirstBestIsMaximal(t, key, beats);
      }
    } else {
      var a, b :| a in Maximal(Elements(cands), beats) && b in Maximal(Elements(cands), beats)
        && key(a) == key(b) && a != b;
      var s := BroughtForward(cands, a);
      var t := BroughtForward(cands, b);
      FirstListedKept(cands, s, key, beats, a);
      FirstListedKept(cands, t, key, beats, b);
      if FirstBest(s, key, beats) == FirstBest(t, key, beats) { OnePerKey(s, key, beats, a, b); }
      assert !(FirstBest(s, key, beats) == FirstBest(cands, key, beats) == FirstBest(t, key, beats));
    }
  }

  lemma SameElements(s: seq<Candidate>, t: seq<Candidate>)
    requires multiset(s) == multiset(t)
    ensures Elements(s) == Elements(t)
  {
    forall c ensures c in s <==> c in t {
      assert c in s <==> c in multiset(s);
      assert c in t <==> c in multiset(t);
    }
  }

  lemma BroughtForward(cands: seq<Candidate>, c: Candidate) returns (t: seq<Candidate>)
    requires c in cands
    ensures multiset(t) == multiset(cands) && t != [] && t[0] == c
  {
    var p := FirstIndex(cands, c);
    t := [c] + cands[..p] + cands[p + 1..];
    assert cands == cands[..p] + [cands[p]] + cands[p + 1..];
  }

  lemma FirstListedKept<K>(cands: seq<Candidate>, t: seq<Candidate>, key: Candidate -> K,
                           beats: (Candidate, Candidate) -> bool, c: Candidate)
    requires multiset(t) == multiset(cands) && t != [] && t[0] == c && c in Maximal(Elements(cands), beats)
    ensures c in FirstBest(t, key, beats)
  {
    SameElements(t, cands);
    assert forall q :: 0 <= q < |t| ==> t[q] in Elements(t);
    assert IsFirstBest(t, 0, key, beats);
  }

  lemma OnePerKey<K>(cands: seq<Candidate>, key: Candidate -> K, beats: (Candidate, Candidate) -> bool, a: Candidate,
                     b: Candidate)
    requires a in FirstBest(cands, key, beats) && b in FirstBest(cands, key, beats) && key(a) == key(b)
    ensures a == b
  {
    var p :| 0 <= p < |cands| && IsFirstBest(cands, p, key, beats) && cands[p] == a;
    var q :| 0 <= q < |cands| && IsFirstBest(cands, q, key, beats) && cands[q] == b;
    assert p == q;
  }

  lemma {:induction false} FirstIndex(cands: seq<Candidate>, c: Candidate) returns (p: nat)
    requires c in cands
    ensures p < |cands| && cands[p] == c && c !in cands[..p]
  {
    var n := |cands| - 1;
    if c in cands[..n] {
      p := FirstIndex(cands[..n], c);
      assert cands[..n][..p] == cands[..p];
    } else {
      p := n;
    }
  }

  /** What a caller of stage 1 relies on: the quality is at least as good, the id no greater when it ties. */
  predicate NoWorseQuote(c: Candidate, d: Candidate) {
    c.quality >= d.quality && (c.quality == d.quality ==> c.id <= d.id)
  }

  ghost predicate NoWorseQuoteOfAll(c: Candidate, cands: seq<Candidate>) {
    forall d :: d in cands && c.geometryHash == d.geometryHash ==> NoWorseQuote(c, d)
  }

  lemma BestQuoteIsNoWorse(cands: seq<Candidate>, c: Candidate)
    requires c in FirstBest(cands, GeometryOf, QuoteBeats)
    ensures c in cands && NoWorseQuoteOfAll(c, cands)
  {
    var p :| 0 <= p < |cands| && IsFirstBest(cands, p, GeometryOf, QuoteBeats) && cands[p] == c;
    forall d | d in cands && c.geometryHash == d.geometryHash ensures NoWorseQuote(c, d) {
      var q :| 0 <= q < |cands| && cands[q] == d;
      assert !QuoteBeats(cands[q], cands[p]);
    }
  }

  /** What a caller of stage 2 relies on. */
  predicate NoWorseCredit(c: Candidate, d: Candidate) {
    c.credit >= d.credit && (c.credit == d.credit ==> c.id <= d.id)
  }

  ghost predicate NoWorseCreditOfAll(c: Candidate, cands: seq<Candidate>) {
    forall d :: d in cands && c.payoffHash == d.payoffHash ==> NoWorseCredit(c, d)
  }

  lemma BestCreditIsNoWorse(cands: seq<Candidate>, c: Candidate)
    requires c in Maximal(Elements(cands), CreditBeats)
    ensures NoWorseCreditOfAll(c, cands)
  {
    forall d | d in cands && c.payoffHash == d.payoffHash ensures NoWorseCredit(c, d) {
      assert d in Elements(cands) && !CreditBeats(d, c);
    }
  }

  method KeepBestQuotes(cands: seq<Candidate>) returns (unique: seq<Candidate>)
    ensures Elements(unique) == FirstBest(cands, GeometryOf, QuoteBeats)
    ensures forall i, j :: 0 <= i < j < |unique| ==> unique[i].geometryHash != unique[j].geometryHash
    ensures QuotesSettled(Elements(cands)) ==> Elements(unique) == Maximal(Elements(cands), QuoteBeats)
    ensures IdsNameGeometry(Elements(cands)) ==> IdsDistinct(unique)
    ensures forall c, d :: c in unique && d in cands && c.geometryHash == d.geometryHash ==> NoWorseQuote(c, d)
  {
    hide RanksByScore, FirstBest, Maximal, QuoteBeats;
    forall c | c in FirstBest(cands, GeometryOf, QuoteBeats) ensures c in cands && NoWorseQuoteOfAll(c, cands) {
      BestQuoteIsNoWorse(cands, c);
    }
    OrdersRankByScore();
    unique := KeepBest(cands, GeometryOf, QuoteBeats);
    if QuotesSettled(Elements(cands)) {
      FirstBestIsMaximal(cands, GeometryOf, QuoteBeats);
    }
    assert forall i :: 0 <= i < |unique| ==> unique[i] in Elements(unique);
  }

  method KeepBestCredits(cands: seq<Candidate>) returns (unique: seq<Candidate>)
    requires IdsDistinct(cands)
    ensures Elements(unique) == Maximal(Elements(cands), CreditBeats)
    ensures IdsDistinct(unique)
    ensures forall i, j :: 0 <= i < j < |unique| ==> unique[i].payoffHash != unique[j].payoffHash
    ensures forall c, d :: c in unique && d in cands && c.payoffHash == d.payoffHash ==> NoWorseCredit(c, d)
  {
    hide RanksByScore, FirstBest, CreditBeats;
    forall c | c in Maximal(Elements(cands), CreditBeats) ensures NoWorseCreditOfAll(c, cands) {
      BestCreditIsNoWorse(cands, c);
    }
    OrdersRankByScore();
    unique := KeepBest(cands, PayoffOf, CreditBeats);
    FirstBestIsMaximal(cands, PayoffOf, CreditBeats);
    assert forall i :: 0 <= i < |unique| ==> unique[i] in Elements(unique);
  }

  // ----- Stage 3: strict payoff dominance -----

  method SharedSpots(unique: seq<Candidate>) returns (spots: seq<real>)
    ensures spots != []
    ensures forall s :: s in spots <==> s in Grid(StrikeSet(Elements(unique)))
  {
    var listed := ListStrikes(unique);
    var strikes := SortedSet(listed);
    ghost var K := StrikeSet(Elements(unique));
    assert forall k :: k in strikes <==> k in K;
    spots := [0.0] + strikes;
    if strikes != [] {
      var top := strikes[|strikes| - 1];
      assert top in strikes;
      TopOfSorted(strikes, K);
      spots := spots + [top + 50.0];
    } else {
      assert K == {};
    }
  }

  method ListStrikes(unique: seq<Candidate>) returns (listed: seq<real>)
    ensures forall k :: k in listed <==> k in StrikeSet(Elements(unique))
  {
    listed := [];
    for i := 0 to |unique|
      invariant forall k :: k in listed <==> k in StrikeSet(Elements(unique[..i]))
    {
      var c := unique[i];
      assert Elements(unique[..i + 1]) == Elements(unique[..i]) + {c}
        by { assert unique[..i + 1] == unique[..i] + [c]; }
      listed := listed + LegStrikes(c.legs);
      LegStrikesListed(c.legs);
    }
    assert unique[..|unique|] == unique;
  }

  lemma LegStrikesListed(legs: seq<Leg>)
    ensures forall k :: k in LegStrikes(legs) <==> exists l :: l in legs && l.strike == k
  {
    forall l | l in legs ensures l.strike in LegStrikes(legs) {
      var i :| 0 <= i < |legs| && legs[i] == l;
      assert LegStrikes(legs)[i] == l.strike;
    }
  }

  lemma TopOfSorted(strikes: seq<real>, K: set<real>)
    requires StrictlyIncreasing(strikes) && strikes != [] && forall k :: k in strikes <==> k in K
    ensures K != {} && Top(K) == strikes[|strikes| - 1]
  {
    assert strikes[|strikes| - 1] in strikes;
    assert Top(K) in strikes;
  }

  function PayoffVector(c: Candidate, spots: seq<real>): (v: seq<real>)
    ensures |v| == |spots|
    ensures forall i :: 0 <= i < |v| ==> v[i] == PayoffAt(c, spots[i])
  {
    Payoffs(c.legs, c.credit, spots)
  }

  predicate StrictlyDominates(a: seq<real>, b: seq<real>) {
    && |a| == |b| && a != []
    && (forall i :: 0 <= i < |a| ==> a[i] >= b[i])
    && (exists i :: 0 <= i < |a| && a[i] > b[i])
  }

  lemma VectorsDecide(a: Candidate, b: Candidate, spots: seq<real>, grid: set<real>)
    requires spots != [] && forall s :: s in spots <==> s in grid
    ensures StrictlyDominates(PayoffVector(a, spots), PayoffVector(b, spots))
        <==> NotBelow(a, b, grid) && SomewhereAbove(a, b, grid)
  {
    hide PayoffAt;
    var va, vb := PayoffVector(a, spots), PayoffVector(b, spots);
    if forall i :: 0 <= i < |va| ==> va[i] >= vb[i] {
      forall s | s in grid ensures PayoffAt(a, s) >= PayoffAt(b, s) {
        assert s in spots;
        var i :| 0 <= i < |spots| && spots[i] == s;
        assert va[i] >= vb[i];
      }
    }
    if NotBelow(a, b, grid) {
      forall i | 0 <= i < |va| ensures va[i] >= vb[i] { assert spots[i] in spots; }
    }
    if s :| s in grid && PayoffAt(a, s) > PayoffAt(b, s) {
      assert s in spots;
      var i :| 0 <= i < |spots| && spots[i] == s;
      assert va[i] > vb[i];
    }
    if i :| 0 <= i < |va| && va[i] > vb[i] {
      assert spots[i] in spots;
    }
  }

  lemma DominatesIsStrictOrder(S: set<Candidate>, grid: set<real>)
    ensures StrictOrder(S, DominatesOn(grid))
  {
    hide PayoffAt;
    forall a, b, c | Dominates(a, b, grid) && Dominates(b, c, grid) ensures Dominates(a, c, grid) {
      var s :| s in grid && PayoffAt(a, s) > PayoffAt(b, s);
      assert PayoffAt(a, s) > PayoffAt(c, s);
    }
  }

  /** The greedy double loop, which skips candidates already dominated on both sides,
      still keeps exactly the candidates that nothing in the universe dominates. */
  method DropDominated(unique: seq<Candidate>, spots: seq<real>, ghost grid: set<real>)
    returns (survivors: seq<Candidate>)
    requires IdsDistinct(unique)
    requires spots != [] && forall s :: s in spots <==> s in grid
    ensures Elements(survivors) == Maximal(Elements(unique), DominatesOn(grid))
    ensures IdsDistinct(survivors)
  {
    var dominated := MarkDominated(unique, spots, grid);
    survivors := NotMarked(unique, dominated);
  }

  method MarkDominated(unique: seq<Candidate>, spots: seq<real>, ghost grid: set<real>) returns (dominated: set<int>)
    requires IdsDistinct(unique)
    requires spots != [] && forall s :: s in spots <==> s in grid
    ensures forall b :: b in unique ==> (b.id in dominated <==> b !in Maximal(Elements(unique), DominatesOn(grid)))
  {
    hide Dominates, PayoffVector, StrictlyDominates, Swept, Justified;
    var vectors := VectorsById(unique, spots);
    dominated := {};
    NothingMarked(unique, grid);
    for i := 0 to |unique|
      invariant Justified(unique, dominated, grid)
      invariant forall p :: 0 <= p < i ==> unique[p].id in dominated || Swept(unique[p], unique, dominated, grid)
    {
      ghost var before := dominated;
      if unique[i].id !in dominated {
        dominated := MarkDominatedBy(unique[i], unique, vectors, dominated, spots, grid);
      }
      forall p | 0 <= p < i ensures unique[p].id in dominated || Swept(unique[p], unique, dominated, grid) {
        if unique[p].id !in before { StillSwept(unique[p], unique, before, dominated, grid); }
      }
    }
    MarkedAreExactlyDominated(unique, dominated, grid);
  }

  lemma NothingMarked(unique: seq<Candidate>, grid: set<real>)
    ensures Justified(unique, {}, grid)
  {
  }

  lemma StillSwept(a: Candidate, among: seq<Candidate>, before: set<int>, dominated: set<int>, grid: set<real>)
    requires Swept(a, among, before, grid) && before <= dominated
    ensures Swept(a, among, dominated, grid)
  {
  }

  method NotMarked(unique: seq<Candidate>, dominated: set<int>) returns (survivors: seq<Candidate>)
    requires IdsDistinct(unique)
    ensures forall c :: c in survivors <==> c in unique && c.id !in dominated
    ensures IdsDistinct(survivors)
  {
    survivors := [];
    var i := 0;
    while i < |unique|
      invariant 0 <= i <= |unique|
      invariant forall c :: c in survivors <==> c in unique[..i] && c.id !in dominated
      invariant IdsDistinct(survivors)
    {
      var c := unique[i];
      assert unique[..i + 1] == unique[..i] + [c];
      if c.id !in dominated {
        assert forall p :: 0 <= p < |survivors| ==> survivors[p] in survivors && survivors[p].id != c.id;
        survivors := survivors + [c];
      }
      i := i + 1;
    }
    assert unique[..i] == unique;
  }

  ghost predicate IdsDistinct(s: seq<Candidate>) {
    forall i, j :: 0 <= i < j < |s| ==> s[i].id != s[j].id
  }

  method VectorsById(unique: seq<Candidate>, spots: seq<real>) returns (vectors: map<int, seq<real>>)
    requires IdsDistinct(unique)
    ensures forall c :: c in unique ==> c.id in vectors && vectors[c.id] == PayoffVector(c, spots)
  {
    hide PayoffVector;
    vectors := map[];
    for i := 0 to |unique|
      invariant forall p :: 0 <= p < i ==>
        unique[p].id in vectors && vectors[unique[p].id] == PayoffVector(unique[p], spots)
    {
      vectors := vectors[unique[i].id := PayoffVector(unique[i], spots)];
    }
  }

  /** The inner loop: one undominated candidate against the whole universe. */
  method MarkDominatedBy(a: Candidate, unique: seq<Candidate>, vectors: map<int, seq<real>>, before: set<int>,
                         spots: seq<real>, ghost grid: set<real>) returns (dominated: set<int>)
    requires a in unique && IdsDistinct(unique)
    requires spots != [] && forall s :: s in spots <==> s in grid
    requires forall c :: c in unique ==> c.id in vectors && vectors[c.id] == PayoffVector(c, spots)
    requires Justified(unique, before, grid)
    ensures before <= dominated && Justified(unique, dominated, grid) && Swept(a, unique, dominated, grid)
  {
    hide PayoffVector, StrictlyDominates, NotBelow, SomewhereAbove;
    dominated := before;
    NotAboveItself(a, grid);
    for j := 0 to |unique|
      invariant before <= dominated
      invariant Justified(unique, dominated, grid)
      invariant Swept(a, unique[..j], dominated, grid)
    {
      var b := unique[j];
      assert unique[..j + 1] == unique[..j] + [b];
      VectorsDecide(a, b, spots, grid);
      if a.id == b.id || b.id in dominated {
        continue;
      }
      if a.credit < b.credit {
        continue;
      }
      if StrictlyDominates(vectors[a.id], vectors[b.id]) {
        dominated := dominated + {b.id};
      }
    }
    assert unique[..|unique|] == unique;
  }

  lemma NotAboveItself(a: Candidate, grid: set<real>)
    ensures !SomewhereAbove(a, a, grid)
  {
    hide PayoffAt;
  }

  /** Whatever is marked has a dominator. */
  ghost predicate Justified(unique: seq<Candidate>, dominated: set<int>, grid: set<real>) {
    forall b :: b in unique && b.id in dominated ==> exists a :: a in unique && Dominates(a, b, grid)
  }

  /** Everything a dominates is marked. */
  ghost predicate Swept(a: Candidate, among: seq<Candidate>, dominated: set<int>, grid: set<real>) {
    forall b :: b in among && Dominates(a, b, grid) ==> b.id in dominated
  }

  /** A maximal dominator is never marked, so it was swept: marked means dominated, and conversely. */
  lemma MarkedAreExactlyDominated(unique: seq<Candidate>, dominated: set<int>, grid: set<real>)
    requires Justified(unique, dominated, grid)
    requires forall p :: 0 <= p < |unique| ==> unique[p].id in dominated || Swept(unique[p], unique, dominated, grid)
    ensures forall b :: b in unique ==> (b.id in dominated <==> b !in Maximal(Elements(unique), DominatesOn(grid)))
  {
    hide Dominates;
    var U := Elements(unique);
    DominatesIsStrictOrder(U, grid);
    forall b | b in unique ensures b.id in dominated <==> b !in Maximal(U, DominatesOn(grid)) {
      if b !in Maximal(U, DominatesOn(grid)) {
        var m := MaximalAbove(U, DominatesOn(grid), b);
        forall a | a in U ensures !Dominates(a, m, grid) { assert !DominatesOn(grid)(a, m); }
        assert m in unique && m.id !in dominated && Dominates(m, b, grid);
      } else {
        assert forall a :: a in U ==> !Dominates(a, b, grid) by {
          forall a | a in U ensures !Dominates(a, b, grid) { assert !DominatesOn(grid)(a, b); }
        }
      }
    }
  }

  // ----- The whole pruning -----

  ghost predicate SortedById(s: seq<Candidate>) {
    forall i, j :: 0 <= i < j < |s| ==> s[i].id < s[j].id
  }

  function InsertById(c: Candidate, s: seq<Candidate>): (r: seq<Candidate>)
    ensures forall d :: d in r <==> d == c || d in s
    ensures SortedById(s) && (forall d :: d in s ==> d.id != c.id) ==> SortedById(r)
  {
    if s == [] then [c]
    else if c.id < s[0].id then [c] + s
    else
      assert s == [s[0]] + s[1..];
      HeadBelowRest(s);
      ConsById(s[0], InsertById(c, s[1..]));
      [s[0]] + InsertById(c, s[1..])
  }

  lemma HeadBelowRest(s: seq<Candidate>)
    requires s != []
    ensures SortedById(s) ==> SortedById(s[1..]) && forall d :: d in s[1..] ==> s[0].id < d.id
  {
  }

  lemma ConsById(h: Candidate, t: seq<Candidate>)
    ensures SortedById(t) && (forall d :: d in t ==> h.id < d.id) ==> SortedById([h] + t)
  {
    if SortedById(t) && forall d :: d in t ==> h.id < d.id {
      forall i, j | 0 <= i < j < |[h] + t| ensures ([h] + t)[i].id < ([h] + t)[j].id {
        assert t[j - 1] in t;
      }
    }
  }

  function SortById(s: seq<Candidate>): (r: seq<Candidate>)
    ensures forall d :: d in r <==> d in s
    ensures IdsDistinct(s) ==> SortedById(r)
  {
    if s == [] then []
    else
      assert s == [s[0]] + s[1..];
      assert IdsDistinct(s) ==> IdsDistinct(s[1..]) && forall d :: d in s[1..] ==> d.id != s[0].id;
      InsertById(s[0], SortById(s[1..]))
  }

  /** Returns the pruned universe in id order. Quotes that tie for the best go to the first listed;
      without such ties the result depends on the universe alone. */
  method ApplyDeterministicDominance(candidates: seq<Candidate>) returns (out: seq<Candidate>)
    requires IdsNameGeometry(Elements(candidates))
    ensures SortedById(out)
    ensures Elements(out) == PrunedUnique(FirstBest(candidates, GeometryOf, QuoteBeats))
    ensures QuotesSettled(Elements(candidates)) ==> Elements(out) == Pruned(Elements(candidates))
    ensures forall c :: c in out ==> c in candidates && NoWorseQuoteOfAll(c, candidates)
    ensures forall d :: d in candidates ==> exists s :: s in out && Represents(candidates, s, d)
  {
    hide SortById, FirstBest, Represents, NoWorseQuoteOfAll, Dominates, Maximal;
    PrunedRepresents(candidates);
    if candidates == [] {
      NothingToPrune(candidates);
      return [];
    }
    var unique := KeepBestQuotes(candidates);
    var spots := SharedSpots(unique);
    ghost var grid := Grid(StrikeSet(Elements(unique)));
    unique := KeepBestCredits(unique);
    out := DropDominated(unique, spots, grid);
    out := SortById(out);
    ghost var left := Elements(out);
    assert forall c :: c in out <==> c in left;
  }

  lemma PrunedAreUnique(unique: set<Candidate>)
    ensures PrunedUnique(unique) <= unique
  {
  }

  lemma PrunedRepresents(candidates: seq<Candidate>)
    ensures var pruned := PrunedUnique(FirstBest(candidates, GeometryOf, QuoteBeats));
      && (forall c :: c in pruned ==> c in candidates && NoWorseQuoteOfAll(c, candidates))
      && (forall d :: d in candidates ==> exists s :: s in pruned && Represents(candidates, s, d))
  {
    hide FirstBest, Represents, NoWorseQuoteOfAll, PrunedUnique;
    var pruned := PrunedUnique(FirstBest(candidates, GeometryOf, QuoteBeats));
    PrunedAreUnique(FirstBest(candidates, GeometryOf, QuoteBeats));
    forall c | c in pruned ensures c in candidates && NoWorseQuoteOfAll(c, candidates) {
      BestQuoteIsNoWorse(candidates, c);
    }
    forall d | d in candidates ensures exists s :: s in pruned && Represents(candidates, s, d) {
      var s := EveryInputIsRepresented(candidates, d);
    }
  }

  lemma NothingToPrune(candidates: seq<Candidate>)
    requires candidates == []
    ensures PrunedUnique(FirstBest(candidates, GeometryOf, QuoteBeats)) == {} == Pruned(Elements(candidates))
  {
  }

  /** A universe determines its id-sorted listing ... */
  lemma {:induction false} ListingUnique(s: seq<Candidate>, t: seq<Candidate>)
    requires SortedById(s) && SortedById(t) && Elements(s) == Elements(t)
    ensures s == t
  {
    if t != [] {
      assert t[0] in Elements(t);
    }
    if s != [] {
      assert s[0] in Elements(s);
      var i :| 0 <= i < |t| && t[i] == s[0];
      var j :| 0 <= j < |s| && s[j] == t[0];
      assert s[0] == t[0];
      assert Elements(s[1..]) == Elements(s) - {s[0]};
      assert Elements(t[1..]) == Elements(t) - {t[0]};
      ListingUnique(s[1..], t[1..]);
    }
  }

  /** ... so, when no two quotes tie for the best of a geometry, any two runs on permutations of the same
      input return the same sequence. */
  lemma PruningIsOrderIndependent(cands: seq<Candidate>, cands': seq<Candidate>, out: seq<Candidate>,
                                  out': seq<Candidate>)
    requires multiset(cands) == multiset(cands')
    requires QuotesSettled(Elements(cands))
    requires SortedById(out) && Elements(out) == PrunedUnique(FirstBest(cands, GeometryOf, QuoteBeats))
    requires SortedById(out') && Elements(out') == PrunedUnique(FirstBest(cands', GeometryOf, QuoteBeats))
    ensures out == out'
  {
    SameElements(cands, cands');
    OrdersRankByScore();
    FirstBestIsMaximal(cands, GeometryOf, QuoteBeats);
    FirstBestIsMaximal(cands', GeometryOf, QuoteBeats);
    ListingUnique(out, out');
  }

  /** Stage 1 depends on the listing order exactly when two different quotes tie for the best. */
  lemma QuotesIgnoreOrderExactly(cands: seq<Candidate>)
    ensures (forall t: seq<Candidate> :: multiset(t) == multiset(cands) ==>
              FirstBest(t, GeometryOf, QuoteBeats) == FirstBest(cands, GeometryOf, QuoteBeats))
        <==> QuotesSettled(Elements(cands))
  {
    hide RanksByScore;
    OrdersRankByScore();
    FirstBestIgnoresOrderExactly(cands, GeometryOf, QuoteBeats);
  }

  /** Two quotes of one geometry that tie on quality: whichever is listed first is the whole result. */
  lemma TiesFollowTheListing(a: Candidate, b: Candidate)
    requires a != b && a.id == b.id && a.quality == b.quality && a.geometryHash == b.geometryHash
    ensures !QuotesSettled(Elements([a, b]))
    ensures PrunedUnique(FirstBest([a, b], GeometryOf, QuoteBeats)) == {a}
    ensures PrunedUnique(FirstBest([b, a], GeometryOf, QuoteBeats)) == {b}
  {
    hide Dominates, Grid, FirstBest;
    TieKeepsFirst(a, b);
    TieKeepsFirst(b, a);
    AloneSurvives(a);
    AloneSurvives(b);
    TieUnsettled(a, b);
  }

  lemma TieUnsettled(a: Candidate, b: Candidate)
    requires a != b && a.id == b.id && a.quality == b.quality && a.geometryHash == b.geometryHash
    ensures !QuotesSettled(Elements([a, b]))
  {
    var S := Elements([a, b]);
    assert [a, b][0] == a && [a, b][1] == b;
    assert S == {a, b};
    assert a in Maximal(S, QuoteBeats) && b in Maximal(S, QuoteBeats);
  }

  lemma AloneSurvives(c: Candidate)
    ensures PrunedUnique({c}) == {c}
  {
    hide PayoffAt;
    assert Maximal({c}, CreditBeats) == {c};
    var grid := Grid(StrikeSet({c}));
    assert !DominatesOn(grid)(c, c);
  }

  lemma TieKeepsFirst(a: Candidate, b: Candidate)
    requires a.id == b.id && a.quality == b.quality && a.geometryHash == b.geometryHash
    ensures FirstBest([a, b], GeometryOf, QuoteBeats) == {a}
  {
    assert [a, b][0] == a && [a, b][1] == b;
    assert IsFirstBest([a, b], 0, GeometryOf, QuoteBeats);
    assert !IsFirstBest([a, b], 1, GeometryOf, QuoteBeats);
  }

  // ----- What is removed, and why -----

  /** No survivor dominates another. */
  lemma SurvivorsIncomparable(S: set<Candidate>, a: Candidate, b: Candidate)
    requires a in Pruned(S) && b in Pruned(S)
    ensures !QuoteBeats(a, b) && !CreditBeats(a, b)
    ensures !Dominates(a, b, Grid(StrikeSet(Maximal(S, QuoteBeats))))
  {
    hide Dominates;
    assert !DominatesOn(Grid(StrikeSet(Maximal(S, QuoteBeats))))(a, b);
  }

  /** s stands for c: some listed g of the same geometry has no worse a quote, some listed p of the same
      payoff as g has no worse a credit, and s has no worse a credit than p and pays no less at any point
      of the shared grid. */
  ghost predicate Represents(cands: seq<Candidate>, s: Candidate, c: Candidate) {
    exists g, p :: Chain(cands, s, p, g, c)
  }

  ghost predicate Chain(cands: seq<Candidate>, s: Candidate, p: Candidate, g: Candidate, c: Candidate) {
    var grid := Grid(StrikeSet(FirstBest(cands, GeometryOf, QuoteBeats)));
    && g in cands && g.geometryHash == c.geometryHash && NoWorseQuote(g, c)
    && p in cands && p.payoffHash == g.payoffHash && NoWorseCredit(p, g)
    && s in cands && s.credit >= p.credit && NotBelow(s, p, grid)
  }

  /** Every input is represented by a survivor. */
  lemma EveryInputIsRepresented(cands: seq<Candidate>, c: Candidate) returns (s: Candidate)
    requires c in cands
    ensures s in PrunedUnique(FirstBest(cands, GeometryOf, QuoteBeats)) && Represents(cands, s, c)
  {
    hide Dominates, RanksByScore;
    OrdersRankByScore();
    var unique := FirstBest(cands, GeometryOf, QuoteBeats);
    var grid := Grid(StrikeSet(unique));
    var g := FirstBestOf(cands, GeometryOf, QuoteBeats, c);
    BestQuoteIsNoWorse(cands, g);
    var p := MaximalAbove(unique, CreditBeats, g);
    DominatesIsStrictOrder(Maximal(unique, CreditBeats), grid);
    s := MaximalAbove(Maximal(unique, CreditBeats), DominatesOn(grid), p);
    hide FirstBest, Grid;
    BestQuoteIsNoWorse(cands, p);
    BestQuoteIsNoWorse(cands, s);
    NoLessThanDominated(s, p, grid);
    assert Chain(cands, s, p, g, c);
  }

  lemma NoLessThanDominated(s: Candidate, p: Candidate, grid: set<real>)
    requires s == p || Dominates(s, p, grid)
    ensures s.credit >= p.credit && NotBelow(s, p, grid)
  {
  }

  /** Every key listed keeps a candidate. */
  lemma FirstBestOf<K>(cands: seq<Candidate>, key: Candidate -> K, beats: (Candidate, Candidate) -> bool, c: Candidate)
    returns (best: Candidate)
    requires RanksByScore(key, beats) && c in cands
    ensures best in FirstBest(cands, key, beats) && key(best) == key(c)
  {
    assert StrictOrder(Elements(cands), beats);
    var m := MaximalAbove(Elements(cands), beats, c);
    var p := FirstUnbeaten(cands, key, beats, m, 0);
    best := cands[p];
  }

  lemma FirstUnbeaten<K>(cands: seq<Candidate>, key: Candidate -> K, beats: (Candidate, Candidate) -> bool,
                         m: Candidate,
                         from: nat) returns (p: nat)
    requires RanksByScore(key, beats) && m in Maximal(Elements(cands), beats)
    requires from <= |cands| && m in cands[from..]
    requires forall q :: 0 <= q < from && key(cands[q]) == key(m) ==> beats(m, cands[q])
    ensures p < |cands| && IsFirstBest(cands, p, key, beats) && key(cands[p]) == key(m)
    decreases |cands| - from
  {
    var x := cands[from];
    assert forall q :: 0 <= q < |cands| ==> cands[q] in Elements(cands);
    if key(x) == key(m) && !beats(m, x) {
      p := from;
      forall q | 0 <= q < |cands| ensures !beats(cands[q], x) {
        assert !beats(cands[q], m);
      }
      forall q | 0 <= q < p && key(cands[q]) == key(x) ensures beats(x, cands[q]) {
        assert beats(m, cands[q]);
        assert beats(m, x) || beats(x, cands[q]);
      }
    } else {
      assert x != m;
      p := FirstUnbeaten(cands, key, beats, m, from + 1);
    }
  }

  /** A candidate built by the payoff prover carries the prover's hash. */
  ghost predicate ProverBuilt(c: Candidate) {
    ProveBoundedLoss(c.legs, c.credit).payoffHash == Some(c.payoffHash)
  }

  /** The second stage only ever merges candidates with one and the same payoff at every spot.
      Its cost comparison always ties, because the hash digests the entry credit: the lower id wins. */
  lemma SamePayoffStageNeverComparesCost(d: Candidate, c: Candidate)
    requires ProverBuilt(d) && ProverBuilt(c)
    ensures CreditBeats(d, c) <==> d.payoffHash == c.payoffHash && d.id < c.id
    ensures CreditBeats(d, c) ==> forall s :: s >= 0.0 ==> PayoffAt(d, s) == PayoffAt(c, s)
  {
    if d.payoffHash == c.payoffHash {
      HashDeterminesPayoff(d.legs, d.credit, c.legs, c.credit);
    }
  }
}
