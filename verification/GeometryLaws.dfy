/** The enumerated structures in strikes and contracts (src/spy_der/candidates/geometry.py). */
module GeometryLaws {
  import opened Options
  import opened RealSeqs
  import opened Payoff
  import opened Geometry
  import opened GeometryLoss

  // ----- Distances from the money -----

  /** A short is so far out of the money, in parts of the spot; a long may even be inside it. */
  lemma OtmRange(m: Market, kind: OptionType, k: real)
    requires m.spot > 0.0
    ensures var out := if kind == Call then k - m.spot else m.spot - k;
      && (IsOtm(m, kind, k) <==> k in m.strikes && m.spot * m.cfg.shortMinOtm <= out <= m.spot * m.cfg.shortMaxOtm)
      && (IsLongStrike(m, kind, k) <==> k in m.strikes && m.spot * m.cfg.longMinOtm <= out <= m.spot * m.cfg.longMaxOtm)
  {
    hide ShareOfSpot;
    MoneynessIsShare(kind, k, m.spot);
    hide Moneyness;
    var out := if kind == Call then k - m.spot else m.spot - k;
    ShareInRange(out, m.spot, m.cfg.shortMinOtm, m.cfg.shortMaxOtm);
    ShareInRange(out, m.spot, m.cfg.longMinOtm, m.cfg.longMaxOtm);
  }

  function ShareOfSpot(x: real, spot: real): real
    requires spot != 0.0
  {
    x / spot
  }

  lemma MoneynessIsShare(kind: OptionType, k: real, spot: real)
    requires spot > 0.0
    ensures Moneyness(kind, k, spot) == ShareOfSpot(if kind == Call then k - spot else spot - k, spot)
  {
  }

  lemma ShareInRange(x: real, spot: real, lo: real, hi: real)
    requires spot > 0.0
    ensures lo <= ShareOfSpot(x, spot) <= hi <==> spot * lo <= x <= spot * hi
  {
    ShareAtLeast(x, spot, lo);
    ShareAtMost(x, spot, hi);
  }

  lemma ShareAtLeast(x: real, spot: real, lo: real)
    requires spot > 0.0
    ensures lo <= x / spot <==> spot * lo <= x
  {
    var q := x / spot;
    QuotientTimes(x, spot);
    Distribute(spot, q, lo);
    ProductSign(spot, q - lo);
  }

  lemma ShareAtMost(x: real, spot: real, hi: real)
    requires spot > 0.0
    ensures x / spot <= hi <==> x <= spot * hi
  {
    var q := x / spot;
    QuotientTimes(x, spot);
    Distribute(spot, hi, q);
    ProductSign(spot, hi - q);
  }

  lemma StrangleIs(m: Market, kc: real, kp: real, g: GeometrySpec)
    requires m.spot > 0.0
    ensures Strangle(m, kc, kp) == Some(g)
       <==> Similar(m, kc, kp) && Assemble(m, LongStrangle, [(Call, kc, 1), (Put, kp, 1)]) == Some(g)
  {
    hide Assemble;
    var c, p := kc - m.spot, m.spot - kp;
    QuotientSign(c, m.spot);
    QuotientSign(p, m.spot);
    StrictShare(c, m.spot);
    StrictShare(p, m.spot);
    if c > 0.0 && p > 0.0 { SimilarShares(c, p, m.spot); }
  }

  lemma StrictShare(x: real, spot: real)
    requires spot > 0.0
    ensures x / spot <= 0.0 <==> x <= 0.0
  {
    ShareAtMost(x, spot, 0.0);
  }

  lemma SimilarShares(c: real, p: real, spot: real)
    requires c > 0.0 && p > 0.0 && spot > 0.0
    ensures c / spot > 0.0
    ensures Abs(c / spot - p / spot) / (c / spot) >= 0.5 <==> 2.0 * Abs(c - p) >= c
  {
    StrictShare(c, spot);
    var x, y := c / spot, p / spot;
    QuotientTimes(c, spot);
    QuotientTimes(p, spot);
    Distribute(spot, x, y);
    ScaledAbs(spot, x - y, c - p);
    ShareAtLeast(Abs(x - y), x, 0.5);
    Distribute(spot, 2.0 * Abs(x - y), x);
    ProductSign(spot, 2.0 * Abs(x - y) - x);
    assert spot * (2.0 * Abs(x - y)) == 2.0 * (spot * Abs(x - y));
  }

  lemma ScaledAbs(spot: real, x: real, y: real)
    requires spot > 0.0 && spot * x == y
    ensures spot * Abs(x) == Abs(y)
  {
    ProductSign(spot, x);
    ProductSign(spot, -x);
    assert spot * -x == -y;
  }

  // ----- Legs -----

  /** Kinds and quantities of a family's legs. */
  function Contracts(family: Family): seq<(OptionType, int)> {
    match family
    case LongCall => [(Call, 1)]
    case LongPut => [(Put, 1)]
    case CallDebitSpread => [(Call, 1), (Call, -1)]
    case PutDebitSpread => [(Put, 1), (Put, -1)]
    case BullPutCreditSpread => [(Put, -1), (Put, 1)]
    case BearCallCreditSpread => [(Call, -1), (Call, 1)]
    case IronCondor | IronButterfly => [(Put, -1), (Put, 1), (Call, -1), (Call, 1)]
    case BrokenWingButterfly => [(Put, 1), (Put, -2), (Put, 1)]
    case LongStraddle | LongStrangle => [(Call, 1), (Put, 1)]
    case BackspreadCall => [(Call, -1), (Call, 2)]
    case BackspreadPut => [(Put, -1), (Put, 2)]
  }

  ghost predicate HasContracts(g: GeometrySpec) {
    && |g.legs| == |Contracts(g.family)|
    && forall i :: 0 <= i < |g.legs| ==> (g.legs[i].quote.kind, g.legs[i].quantity) == Contracts(g.family)[i]
  }

  // ----- The market -----

  /** The last quote the chain lists for its kind and strike. */
  ghost predicate LastListed(chain: seq<Quote>, q: Quote) {
    exists i :: 0 <= i < |chain| && chain[i] == q && NotListedFrom(chain, i + 1, KeyOf(q))
  }

  ghost predicate NotListedFrom(chain: seq<Quote>, from: int, key: Key) {
    forall j :: 0 <= j < |chain| && from <= j ==> KeyOf(chain[j]) != key
  }

  lemma ListedLast(front: seq<Quote>, last: Quote, q: Quote)
    requires KeyOf(last) == KeyOf(q)
    ensures LastListed(front + [last], q) <==> last == q
  {
    var chain := front + [last];
    if i :| 0 <= i < |chain| && chain[i] == q && NotListedFrom(chain, i + 1, KeyOf(q)) {
      assert chain[|front|] == last;
      assert i == |front|;
    }
    if last == q { assert chain[|front|] == q && NotListedFrom(chain, |front| + 1, KeyOf(q)); }
  }

  lemma ListedBefore(front: seq<Quote>, last: Quote, q: Quote)
    requires KeyOf(last) != KeyOf(q)
    ensures LastListed(front + [last], q) <==> LastListed(front, q)
  {
    var chain := front + [last];
    if i :| 0 <= i < |chain| && chain[i] == q && NotListedFrom(chain, i + 1, KeyOf(q)) {
      assert front[i] == q;
      forall j | 0 <= j < |front| && i + 1 <= j ensures KeyOf(front[j]) != KeyOf(q) { assert chain[j] == front[j]; }
      assert NotListedFrom(front, i + 1, KeyOf(q));
    }
    if i :| 0 <= i < |front| && front[i] == q && NotListedFrom(front, i + 1, KeyOf(q)) {
      assert chain[i] == q;
      assert NotListedFrom(chain, i + 1, KeyOf(q));
    }
  }

  lemma {:induction false} KeysAreLastListed(chain: seq<Quote>, q: Quote)
    ensures LastListed(chain, q) <==> KeyOf(q) in IndexKeys(chain) && IndexKeys(chain)[KeyOf(q)] == q
  {
    if chain != [] {
      var front, last := chain[..|chain| - 1], chain[|chain| - 1];
      assert chain == front + [last];
      KeysAreLastListed(front, q);
      hide LastListed;
      if KeyOf(last) == KeyOf(q) { ListedLast(front, last, q); } else { ListedBefore(front, last, q); }
    }
  }

  /** The market of a chain: its last quotes, its strikes in order, its one expiration. */
  ghost predicate IsMarket(chain: seq<Quote>, spot: real, cfg: FactoryConfig, m: Market) {
    && m.spot == spot && m.cfg == cfg
    && (forall q :: q in chain ==> q.expiration == m.expiration)
    && (forall k :: k in m.byKey ==> KeyOf(m.byKey[k]) == k && LastListed(chain, m.byKey[k]))
    && (forall q :: LastListed(chain, q) ==> KeyOf(q) in m.byKey && m.byKey[KeyOf(q)] == q)
    && StrictlyIncreasing(m.strikes) && forall k :: k in m.strikes <==> exists q :: q in chain && q.strike == k
  }

  /** There is a market exactly for a positive spot and quotes, at least one, of a single expiration. */
  lemma MarketExactly(chain: seq<Quote>, spot: real, cfg: FactoryConfig)
    ensures MarketOf(chain, spot, cfg).Some?
       <==> 0.0 < spot && chain != [] && forall q, r :: q in chain && r in chain ==> q.expiration == r.expiration
    ensures MarketOf(chain, spot, cfg).Some? ==> IsMarket(chain, spot, cfg, MarketOf(chain, spot, cfg).value)
  {
    hide LastListed, IndexKeys;
    if MarketOf(chain, spot, cfg).Some? {
      var m := MarketOf(chain, spot, cfg).value;
      forall q: Quote ensures LastListed(chain, q) <==> KeyOf(q) in m.byKey && m.byKey[KeyOf(q)] == q {
        KeysAreLastListed(chain, q);
      }
      StrikesAreListed(chain);
    }
  }

  lemma StrikesAreListed(chain: seq<Quote>)
    ensures forall k :: k in ListedStrikes(chain) <==> exists q :: q in chain && q.strike == k
  {
    forall q | q in chain ensures q.strike in ListedStrikes(chain) {
      var i :| 0 <= i < |chain| && chain[i] == q;
      assert ListedStrikes(chain)[i] == q.strike;
    }
  }

  lemma QuotesHaveStrikes(chain: seq<Quote>, spot: real, cfg: FactoryConfig, m: Market, key: Key)
    requires IsMarket(chain, spot, cfg, m) && key in m.byKey
    ensures key.1 in m.strikes && KeyOf(m.byKey[key]) == key && LastListed(chain, m.byKey[key])
  {
    assert m.byKey[key] in chain && m.byKey[key].strike == key.1;
  }

  // ----- The structures -----

  /** The family is allowed, and the legs are last quotes of the chain, in the kinds and quantities of the family. */
  ghost predicate MadeOfQuotes(chain: seq<Quote>, m: Market, g: GeometrySpec) {
    && (m.cfg.families.Some? ==> g.family in m.cfg.families.value)
    && g.expiration == m.expiration && HasContracts(g)
    && forall i :: 0 <= i < |g.legs| ==> LastListed(chain, g.legs[i].quote)
  }

  /** Which strikes a family takes: sold ones so far out of the money, bought wings beyond them by a configured
      width, both wings alike; bought ones in their own range, the sold leg of a debit spread farther out; around the
      strike nearest the spot, or on both sides of it. */
  ghost predicate StrikesInPlace(m: Market, g: GeometrySpec)
    requires HasContracts(g) && m.strikes != []
  {
    var atm := NearestStrike(m.strikes, m.spot);
    match g.family
    case LongCall => IsLongStrike(m, Call, Strike(g, 0))
    case LongPut => IsLongStrike(m, Put, Strike(g, 0))
    case CallDebitSpread => IsLongStrike(m, Call, Strike(g, 0)) && Apart(m, Strike(g, 1), Strike(g, 0))
    case PutDebitSpread => IsLongStrike(m, Put, Strike(g, 0)) && Apart(m, Strike(g, 0), Strike(g, 1))
    case BullPutCreditSpread => IsOtm(m, Put, Strike(g, 0)) && Apart(m, Strike(g, 0), Strike(g, 1))
    case BearCallCreditSpread => IsOtm(m, Call, Strike(g, 0)) && Apart(m, Strike(g, 1), Strike(g, 0))
    case IronCondor =>
      && IsOtm(m, Put, Strike(g, 0)) && IsOtm(m, Call, Strike(g, 2)) && Balanced(m, Strike(g, 0), Strike(g, 2))
      && Winged(m, g)
    case IronButterfly => Strike(g, 0) == Strike(g, 2) == atm && Winged(m, g)
    case BrokenWingButterfly =>
      && Strike(g, 1) == atm && Apart(m, Strike(g, 0), atm) && Apart(m, atm, Strike(g, 2))
      && atm - Strike(g, 2) > Strike(g, 0) - atm
    case LongStraddle => Strike(g, 0) == Strike(g, 1) == atm
    case LongStrangle =>
      IsOtm(m, Call, Strike(g, 0)) && IsOtm(m, Put, Strike(g, 1)) && Similar(m, Strike(g, 0), Strike(g, 1))
    case BackspreadCall =>
      IsLongStrike(m, Call, Strike(g, 0)) && IsOtm(m, Call, Strike(g, 1)) && Strike(g, 0) < Strike(g, 1)
    case BackspreadPut =>
      IsLongStrike(m, Put, Strike(g, 0)) && IsOtm(m, Put, Strike(g, 1)) && Strike(g, 1) < Strike(g, 0)
  }

  ghost predicate Apart(m: Market, high: real, low: real) { high - low in m.cfg.spreadWidths }

  /** Both bought wings beyond the sold strikes, by the same configured width. */
  ghost predicate Winged(m: Market, g: GeometrySpec)
    requires |g.legs| == 4
  {
    Strike(g, 0) - Strike(g, 1) == Strike(g, 3) - Strike(g, 2) && Apart(m, Strike(g, 0), Strike(g, 1))
  }

  ghost predicate Balanced(m: Market, kp: real, kc: real) {
    Abs((m.spot - kp) - (kc - m.spot)) <= m.spot * m.cfg.condorMaxSkew
  }

  ghost predicate Similar(m: Market, kc: real, kp: real) {
    kp < m.spot < kc && 2.0 * Abs((kc - m.spot) - (m.spot - kp)) < kc - m.spot
  }

  ghost predicate Textbook(chain: seq<Quote>, m: Market, g: GeometrySpec)
    requires m.strikes != []
  {
    HasContracts(g) && MadeOfQuotes(chain, m, g) && StrikesInPlace(m, g)
  }

  ghost predicate InFamily(family: Family, orders: seq<Order>) {
    && |orders| == |Contracts(family)|
    && forall i :: 0 <= i < |orders| ==> (orders[i].0, orders[i].2) == Contracts(family)[i]
  }

  /** An assembled structure is the one of its family with these strikes, if they are all quoted. */
  lemma AssembleExactly(chain: seq<Quote>, m: Market, family: Family, orders: seq<Order>, g: GeometrySpec)
    requires IsMarket(chain, m.spot, m.cfg, m) && InFamily(family, orders)
    ensures Assemble(m, family, orders) == Some(g)
       <==> && g.family == family && HasContracts(g) && MadeOfQuotes(chain, m, g)
            && forall i :: 0 <= i < |orders| ==> Strike(g, i) == orders[i].1
    ensures Assemble(m, family, orders) == Some(g) ==> forall i :: 0 <= i < |orders| ==> orders[i].1 in m.strikes
  {
    hide Contracts, LastListed, StrictlyIncreasing;
    if Assemble(m, family, orders) == Some(g) {
      forall i | 0 <= i < |orders|
        ensures LastListed(chain, g.legs[i].quote) && orders[i].1 in m.strikes && Strike(g, i) == orders[i].1
        ensures (g.legs[i].quote.kind, g.legs[i].quantity) == Contracts(family)[i]
      {
        assert Quoted(m, orders[i]);
        QuotesHaveStrikes(chain, m.spot, m.cfg, m, (orders[i].0, orders[i].1));
      }
    }
    if g.family == family && HasContracts(g) && MadeOfQuotes(chain, m, g)
       && forall i :: 0 <= i < |orders| ==> Strike(g, i) == orders[i].1 {
      forall i | 0 <= i < |orders|
        ensures Quoted(m, orders[i]) && QuotedLegData(m.byKey[(orders[i].0, orders[i].1)], orders[i].2) == g.legs[i]
      {
        assert LastListed(chain, g.legs[i].quote);
        assert KeyOf(g.legs[i].quote) == (orders[i].0, orders[i].1);
      }
      assert Assemble(m, family, orders).value.legs == g.legs;
    }
  }

  lemma CreditVerticalExactly(chain: seq<Quote>, m: Market, kind: OptionType, g: GeometrySpec)
    requires IsMarket(chain, m.spot, m.cfg, m) && m.strikes != []
    ensures IsCreditVertical(m, kind, g)
       <==> g.family == (if kind == Put then BullPutCreditSpread else BearCallCreditSpread) && Textbook(chain, m, g)
  {
    hide Assemble, IsMarket, MadeOfQuotes, IsOtm, LastListed;
    var family := if kind == Put then BullPutCreditSpread else BearCallCreditSpread;
    if k, w :| IsOtm(m, kind, k) && w in m.cfg.spreadWidths && CreditVertical(m, kind, k, w) == Some(g) {
      AssembleExactly(chain, m, family, [(kind, k, -1), (kind, if kind == Put then k - w else k + w, 1)], g);
    }
    if g.family == family && Textbook(chain, m, g) {
      var k, long := Strike(g, 0), Strike(g, 1);
      var w := if kind == Put then k - long else long - k;
      AssembleExactly(chain, m, family, [(kind, k, -1), (kind, long, 1)], g);
      assert CreditVertical(m, kind, k, w) == Some(g);
    }
  }

  lemma DebitVerticalExactly(chain: seq<Quote>, m: Market, kind: OptionType, g: GeometrySpec)
    requires IsMarket(chain, m.spot, m.cfg, m) && m.strikes != []
    ensures IsDebitVertical(m, kind, g)
       <==> g.family == (if kind == Call then CallDebitSpread else PutDebitSpread) && Textbook(chain, m, g)
  {
    hide Assemble, IsMarket, MadeOfQuotes, IsLongStrike, LastListed;
    var family := if kind == Call then CallDebitSpread else PutDebitSpread;
    if k, w :| IsLongStrike(m, kind, k) && w in m.cfg.spreadWidths && DebitVertical(m, kind, k, w) == Some(g) {
      AssembleExactly(chain, m, family, [(kind, k, 1), (kind, if kind == Call then k + w else k - w, -1)], g);
    }
    if g.family == family && Textbook(chain, m, g) {
      var k, sell := Strike(g, 0), Strike(g, 1);
      var w := if kind == Call then sell - k else k - sell;
      AssembleExactly(chain, m, family, [(kind, k, 1), (kind, sell, -1)], g);
      assert DebitVertical(m, kind, k, w) == Some(g);
    }
  }

  lemma SingleExactly(chain: seq<Quote>, m: Market, kind: OptionType, g: GeometrySpec)
    requires IsMarket(chain, m.spot, m.cfg, m) && m.strikes != []
    ensures IsSingle(m, kind, g) <==> g.family == (if kind == Call then LongCall else LongPut) && Textbook(chain, m, g)
  {
    hide Assemble, IsMarket, MadeOfQuotes, IsLongStrike, LastListed;
    var family := if kind == Call then LongCall else LongPut;
    if k :| IsLongStrike(m, kind, k) && Single(m, kind, k) == Some(g) {
      AssembleExactly(chain, m, family, [(kind, k, 1)], g);
    }
    if g.family == family && Textbook(chain, m, g) {
      AssembleExactly(chain, m, family, [(kind, Strike(g, 0), 1)], g);
      assert Single(m, kind, Strike(g, 0)) == Some(g);
    }
  }

  /** Four legs around two sold strikes. */
  lemma WingsExactly(chain: seq<Quote>, m: Market, family: Family, kp: real, kc: real, w: real, g: GeometrySpec)
    requires IsMarket(chain, m.spot, m.cfg, m) && family in {IronCondor, IronButterfly}
    ensures Wings(m, family, kp, kc, w) == Some(g)
       <==> && g.family == family && HasContracts(g) && MadeOfQuotes(chain, m, g)
            && Strike(g, 0) == kp && Strike(g, 1) == kp - w && Strike(g, 2) == kc && Strike(g, 3) == kc + w
  {
    hide Assemble, IsMarket, MadeOfQuotes, LastListed;
    AssembleExactly(chain, m, family, [(Put, kp, -1), (Put, kp - w, 1), (Call, kc, -1), (Call, kc + w, 1)], g);
  }

  lemma CondorExactly(chain: seq<Quote>, m: Market, g: GeometrySpec)
    requires IsMarket(chain, m.spot, m.cfg, m) && m.strikes != [] && m.spot > 0.0
    ensures IsCondor(m, g) <==> g.family == IronCondor && Textbook(chain, m, g)
  {
    hide Wings, IsMarket, MadeOfQuotes, IsOtm, LastListed, Condor, Balanced, HasContracts;
    if w, kp, kc :|
      w in m.cfg.spreadWidths && IsOtm(m, Put, kp) && IsOtm(m, Call, kc) && Condor(m, w, kp, kc) == Some(g) {
      CondorIs(m, w, kp, kc, g);
      WingsExactly(chain, m, IronCondor, kp, kc, w, g);
      FourLegs(g);
    }
    if g.family == IronCondor && Textbook(chain, m, g) {
      FourLegs(g);
      var kp, kc, w := Strike(g, 0), Strike(g, 2), Strike(g, 0) - Strike(g, 1);
      WingsExactly(chain, m, IronCondor, kp, kc, w, g);
      CondorIs(m, w, kp, kc, g);
      assert Condor(m, w, kp, kc) == Some(g);
    }
  }

  lemma FourLegs(g: GeometrySpec)
    requires HasContracts(g) && g.family in {IronCondor, IronButterfly}
    ensures |g.legs| == 4
  {
  }

  lemma CondorIs(m: Market, w: real, kp: real, kc: real, g: GeometrySpec)
    requires m.spot > 0.0
    ensures Condor(m, w, kp, kc) == Some(g) <==> Balanced(m, kp, kc) && Wings(m, IronCondor, kp, kc, w) == Some(g)
  {
    hide Wings;
    ShareAtMost(Abs((m.spot - kp) - (kc - m.spot)), m.spot, m.cfg.condorMaxSkew);
  }

  lemma AtTheMoneyExactly(chain: seq<Quote>, m: Market, g: GeometrySpec)
    requires IsMarket(chain, m.spot, m.cfg, m) && m.strikes != []
    ensures IsAtTheMoney(m, g)
       <==> g.family in {IronButterfly, BrokenWingButterfly, LongStraddle} && Textbook(chain, m, g)
  {
    hide Wings, Assemble, IsMarket, MadeOfQuotes, HasContracts, StrikesInPlace, NearestStrike;
    var atm := NearestStrike(m.strikes, m.spot);
    ButterflyExactly(chain, m, g);
    BrokenWingExactly(chain, m, g);
    StraddleExactly(chain, m, g);
  }

  lemma ButterflyExactly(chain: seq<Quote>, m: Market, g: GeometrySpec)
    requires IsMarket(chain, m.spot, m.cfg, m) && m.strikes != []
    ensures (exists w :: w in m.cfg.spreadWidths && Butterfly(m, NearestStrike(m.strikes, m.spot), w) == Some(g))
       <==> g.family == IronButterfly && Textbook(chain, m, g)
  {
    hide Wings, IsMarket, MadeOfQuotes, HasContracts, LastListed, NearestStrike;
    var atm := NearestStrike(m.strikes, m.spot);
    if w :| w in m.cfg.spreadWidths && Butterfly(m, atm, w) == Some(g) {
      WingsExactly(chain, m, IronButterfly, atm, atm, w, g);
      FourLegs(g);
    }
    if g.family == IronButterfly && Textbook(chain, m, g) {
      FourLegs(g);
      var w := Strike(g, 0) - Strike(g, 1);
      WingsExactly(chain, m, IronButterfly, atm, atm, w, g);
      assert Butterfly(m, atm, w) == Some(g);
    }
  }

  lemma BrokenWingIs(chain: seq<Quote>, m: Market, atm: real, near: real, far: real, g: GeometrySpec)
    requires IsMarket(chain, m.spot, m.cfg, m)
    ensures BrokenWing(m, atm, near, far) == Some(g)
       <==> && near < far && g.family == BrokenWingButterfly && HasContracts(g) && MadeOfQuotes(chain, m, g)
            && Strike(g, 0) == atm + near && Strike(g, 1) == atm && Strike(g, 2) == atm - far
  {
    hide Assemble, IsMarket, MadeOfQuotes, LastListed;
    AssembleExactly(chain, m, BrokenWingButterfly, [(Put, atm + near, 1), (Put, atm, -2), (Put, atm - far, 1)], g);
  }

  lemma BrokenWingExactly(chain: seq<Quote>, m: Market, g: GeometrySpec)
    requires IsMarket(chain, m.spot, m.cfg, m) && m.strikes != []
    ensures (exists near, far ::
              near in m.cfg.spreadWidths && far in m.cfg.spreadWidths
              && BrokenWing(m, NearestStrike(m.strikes, m.spot), near, far) == Some(g))
       <==> g.family == BrokenWingButterfly && Textbook(chain, m, g)
  {
    hide BrokenWing, IsMarket, MadeOfQuotes, LastListed, NearestStrike;
    var atm := NearestStrike(m.strikes, m.spot);
    if near, far :|
      near in m.cfg.spreadWidths && far in m.cfg.spreadWidths && BrokenWing(m, atm, near, far) == Some(g) {
      BrokenWingIs(chain, m, atm, near, far, g);
    }
    if g.family == BrokenWingButterfly && Textbook(chain, m, g) {
      BrokenWingIs(chain, m, atm, Strike(g, 0) - atm, atm - Strike(g, 2), g);
      assert BrokenWing(m, atm, Strike(g, 0) - atm, atm - Strike(g, 2)) == Some(g);
    }
  }

  lemma StraddleExactly(chain: seq<Quote>, m: Market, g: GeometrySpec)
    requires IsMarket(chain, m.spot, m.cfg, m) && m.strikes != []
    ensures Straddle(m, NearestStrike(m.strikes, m.spot)) == Some(g)
       <==> g.family == LongStraddle && Textbook(chain, m, g)
  {
    hide Assemble, IsMarket, MadeOfQuotes, LastListed, NearestStrike;
    var atm := NearestStrike(m.strikes, m.spot);
    AssembleExactly(chain, m, LongStraddle, [(Call, atm, 1), (Put, atm, 1)], g);
  }

  lemma StrangleExactly(chain: seq<Quote>, m: Market, g: GeometrySpec)
    requires IsMarket(chain, m.spot, m.cfg, m) && m.strikes != [] && m.spot > 0.0
    ensures IsStrangle(m, g) <==> g.family == LongStrangle && Textbook(chain, m, g)
  {
    hide Assemble, IsMarket, MadeOfQuotes, IsOtm, LastListed, Strangle, Similar;
    if kc, kp :| IsOtm(m, Call, kc) && IsOtm(m, Put, kp) && Strangle(m, kc, kp) == Some(g) {
      StrangleIs(m, kc, kp, g);
      AssembleExactly(chain, m, LongStrangle, [(Call, kc, 1), (Put, kp, 1)], g);
    }
    if g.family == LongStrangle && Textbook(chain, m, g) {
      var kc, kp := Strike(g, 0), Strike(g, 1);
      AssembleExactly(chain, m, LongStrangle, [(Call, kc, 1), (Put, kp, 1)], g);
      StrangleIs(m, kc, kp, g);
      assert Strangle(m, kc, kp) == Some(g);
    }
  }

  lemma BackspreadExactly(chain: seq<Quote>, m: Market, kind: OptionType, g: GeometrySpec)
    requires IsMarket(chain, m.spot, m.cfg, m) && m.strikes != []
    ensures IsBackspread(m, kind, g)
       <==> g.family == (if kind == Call then BackspreadCall else BackspreadPut) && Textbook(chain, m, g)
  {
    hide Assemble, IsMarket, MadeOfQuotes, IsOtm, IsLongStrike, LastListed;
    var family := if kind == Call then BackspreadCall else BackspreadPut;
    if sell, buy :| IsLongStrike(m, kind, sell) && IsOtm(m, kind, buy) && Backspread(m, kind, sell, buy) == Some(g) {
      AssembleExactly(chain, m, family, [(kind, sell, -1), (kind, buy, 2)], g);
    }
    if g.family == family && Textbook(chain, m, g) {
      var sell, buy := Strike(g, 0), Strike(g, 1);
      AssembleExactly(chain, m, family, [(kind, sell, -1), (kind, buy, 2)], g);
      assert Backspread(m, kind, sell, buy) == Some(g);
    }
  }

  /** A geometry is enumerated exactly if it is made of last quotes of the chain, in the kinds and quantities of an
      allowed family, with its strikes in place. */
  lemma LegalIsTextbook(chain: seq<Quote>, spot: real, cfg: FactoryConfig, g: GeometrySpec)
    requires MarketOf(chain, spot, cfg).Some?
    ensures var m := MarketOf(chain, spot, cfg).value;
      IsMarket(chain, spot, cfg, m) && m.strikes != [] && (IsLegal(m, g) <==> Textbook(chain, m, g))
  {
    hide *;
    MarketExactly(chain, spot, cfg);
    MarketHasStrikes(chain, spot, cfg);
    var m := MarketOf(chain, spot, cfg).value;
    SpotOfMarket(chain, spot, cfg);
    CreditVerticalExactly(chain, m, Put, g);
    CreditVerticalExactly(chain, m, Call, g);
    DebitVerticalExactly(chain, m, Call, g);
    DebitVerticalExactly(chain, m, Put, g);
    SingleExactly(chain, m, Call, g);
    SingleExactly(chain, m, Put, g);
    CondorExactly(chain, m, g);
    AtTheMoneyExactly(chain, m, g);
    StrangleExactly(chain, m, g);
    BackspreadExactly(chain, m, Call, g);
    BackspreadExactly(chain, m, Put, g);
    LegalIs(m, g);
  }

  lemma LegalIs(m: Market, g: GeometrySpec)
    ensures IsLegal(m, g)
       <==> || IsCreditVertical(m, Put, g) || IsCreditVertical(m, Call, g)
            || IsDebitVertical(m, Call, g) || IsDebitVertical(m, Put, g)
            || IsSingle(m, Call, g) || IsSingle(m, Put, g)
            || IsCondor(m, g) || IsAtTheMoney(m, g) || IsStrangle(m, g)
            || IsBackspread(m, Call, g) || IsBackspread(m, Put, g)
  {
  }

  lemma SpotOfMarket(chain: seq<Quote>, spot: real, cfg: FactoryConfig)
    requires MarketOf(chain, spot, cfg).Some? && IsMarket(chain, spot, cfg, MarketOf(chain, spot, cfg).value)
    ensures var m := MarketOf(chain, spot, cfg).value;
      m.spot == spot > 0.0 && m.cfg == cfg && IsMarket(chain, m.spot, m.cfg, m)
  {
    hide LastListed;
  }

  lemma MarketHasStrikes(chain: seq<Quote>, spot: real, cfg: FactoryConfig)
    requires MarketOf(chain, spot, cfg).Some?
    ensures MarketOf(chain, spot, cfg).value.strikes != []
  {
    Geometry.StrikesListed(chain);
  }

  /** Between two equally near strikes the at-the-money one is the lower. */
  lemma {:induction false} NearestPrefersLower(strikes: seq<real>, spot: real, j: real)
    requires StrictlyIncreasing(strikes) && j in strikes
    requires Abs(j - spot) == Abs(NearestStrike(strikes, spot) - spot)
    ensures NearestStrike(strikes, spot) <= j
  {
    if |strikes| > 1 && j != strikes[0] {
      assert strikes == [strikes[0]] + strikes[1..];
      assert j in strikes[1..];
      var rest := NearestStrike(strikes[1..], spot);
      assert Abs(rest - spot) <= Abs(j - spot);
      if NearestStrike(strikes, spot) == rest {
        NearestPrefersLower(strikes[1..], spot, j);
      } else {
        assert strikes[0] < j;
      }
    } else if |strikes| > 1 {
      assert Abs(strikes[0] - spot) <= Abs(NearestStrike(strikes[1..], spot) - spot);
    }
  }
}
