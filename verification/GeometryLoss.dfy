/** The generic loss proof agrees with the textbook loss of every enumerated family
    (src/spy_der/candidates/geometry.py with src/spy_der/candidates/payoff.py). */
module GeometryLoss {
  import opened Options
  import opened RealSeqs
  import opened Payoff
  import opened Geometry

  function Legs(g: GeometrySpec): (legs: seq<Leg>)
    ensures |legs| == |g.legs|
  {
    seq(|g.legs|, i requires 0 <= i < |g.legs| => LegOf(g.legs[i]))
  }

  function LegOf(l: QuotedLeg): Leg { LegData(l.quote.kind, l.quote.strike, l.quantity) }

  // ----- From a payoff floor to the maximum loss -----

  /** A structure that can lose at most x on its legs, and does at some spot, has loss max(x - credit, 0). */
  lemma LossFromFloor(legs: seq<Leg>, credit: real, x: real, worst: real)
    requires NetCallQuantity(legs) >= 0 && x >= 0.0
    requires forall s :: s >= 0.0 ==> credit - x <= TerminalPayoff(legs, credit, s)
    requires worst >= 0.0 && TerminalPayoff(legs, credit, worst) == credit - x
    ensures var proof := ProveBoundedLoss(legs, credit);
      !proof.unbounded && proof.maximumLoss == Max(x - credit, 0.0)
  {
    hide TerminalPayoff, ProveBoundedLoss, NetCallQuantity;
    MaximumLossIsExact(legs, credit);
  }

  lemma OneLeg(a: Leg, credit: real, s: real)
    ensures TerminalPayoff([a], credit, s) == credit + LegPayoff(a, s)
    ensures NetCallQuantity([a]) == CallQuantity(a)
  {
    assert [a][..0] == [];
  }

  lemma TwoLegs(a: Leg, b: Leg, credit: real, s: real)
    ensures TerminalPayoff([a, b], credit, s) == credit + LegPayoff(a, s) + LegPayoff(b, s)
    ensures NetCallQuantity([a, b]) == CallQuantity(a) + CallQuantity(b)
  {
    assert [a, b][..1] == [a];
    OneLeg(a, credit, s);
  }

  lemma ThreeLegs(a: Leg, b: Leg, c: Leg, credit: real, s: real)
    ensures TerminalPayoff([a, b, c], credit, s) == credit + LegPayoff(a, s) + LegPayoff(b, s) + LegPayoff(c, s)
    ensures NetCallQuantity([a, b, c]) == CallQuantity(a) + CallQuantity(b) + CallQuantity(c)
  {
    assert [a, b, c][..2] == [a, b];
    TwoLegs(a, b, credit, s);
  }

  lemma FourLegs(a: Leg, b: Leg, c: Leg, d: Leg, credit: real, s: real)
    ensures TerminalPayoff([a, b, c, d], credit, s)
      == credit + LegPayoff(a, s) + LegPayoff(b, s) + LegPayoff(c, s) + LegPayoff(d, s)
    ensures NetCallQuantity([a, b, c, d]) == CallQuantity(a) + CallQuantity(b) + CallQuantity(c) + CallQuantity(d)
  {
    assert [a, b, c, d][..3] == [a, b, c];
    ThreeLegs(a, b, c, credit, s);
  }

  function CallQuantity(l: Leg): int { if l.kind == Call then l.quantity else 0 }

  // ----- Legs of an assembled structure -----

  function Ordered(o: Order): LegData { LegData(o.0, o.1, o.2) }

  ghost predicate Indexed(m: Market) {
    forall k :: k in m.byKey ==> KeyOf(m.byKey[k]) == k
  }

  lemma AssembledLegs(m: Market, family: Family, orders: seq<Order>, g: GeometrySpec)
    requires Indexed(m) && Assemble(m, family, orders) == Some(g)
    ensures g.family == family && |g.legs| == |orders|
    ensures forall i :: 0 <= i < |orders| ==> g.legs[i].quote.strike == orders[i].1 && Legs(g)[i] == Ordered(orders[i])
  {
    forall i | 0 <= i < |orders| ensures g.legs[i].quote.strike == orders[i].1 && Legs(g)[i] == Ordered(orders[i]) {
      assert Quoted(m, orders[i]);
      assert KeyOf(m.byKey[(orders[i].0, orders[i].1)]) == (orders[i].0, orders[i].1);
    }
  }

  // ----- The families -----

  function LegCount(family: Family): nat {
    match family
    case LongCall | LongPut => 1
    case BrokenWingButterfly => 3
    case IronCondor | IronButterfly => 4
    case _ => 2
  }

  function Clamp(x: real, lo: real, hi: real): real { Max(lo, Min(x, hi)) }

  /** The most the legs alone can cost at expiry. */
  function WorstOutflow(g: GeometrySpec): real
    requires |g.legs| == LegCount(g.family)
  {
    match g.family
    case BullPutCreditSpread | BearCallCreditSpread | BackspreadCall | BackspreadPut => Abs(Strike(g, 0) - Strike(g, 1))
    case IronCondor | IronButterfly =>
      // the wings overlap only when the short put lies above the long call
      var width := Strike(g, 0) - Strike(g, 1);
      width + Clamp(Strike(g, 0) - Strike(g, 2) - width, 0.0, width)
    case BrokenWingButterfly => (Strike(g, 1) - Strike(g, 2)) - (Strike(g, 0) - Strike(g, 1))
    case _ => 0.0
  }

  function Strike(g: GeometrySpec, i: nat): real
    requires i < |g.legs|
  {
    g.legs[i].quote.strike
  }

  ghost predicate ClosedForm(g: GeometrySpec, credit: real) {
    && |g.legs| == LegCount(g.family)
    && var proof := ProveBoundedLoss(Legs(g), credit);
       !proof.unbounded && proof.maximumLoss == Max(WorstOutflow(g) - credit, 0.0)
  }

  lemma CreditVerticalLoss(m: Market, kind: OptionType, k: real, w: real, g: GeometrySpec, credit: real)
    requires Indexed(m) && w > 0.0 && CreditVertical(m, kind, k, w) == Some(g)
    ensures ClosedForm(g, credit)
  {
    hide ProveBoundedLoss, TerminalPayoff, NetCallQuantity;
    var long := if kind == Put then k - w else k + w;
    var family := if kind == Put then BullPutCreditSpread else BearCallCreditSpread;
    AssembledLegs(m, family, [(kind, k, -1), (kind, long, 1)], g);
    var a, b := Legs(g)[0], Legs(g)[1];
    assert Legs(g) == [a, b];
    forall s | s >= 0.0 ensures credit - w <= TerminalPayoff(Legs(g), credit, s) { TwoLegs(a, b, credit, s); }
    TwoLegs(a, b, credit, long);
    LossFromFloor(Legs(g), credit, w, long);
  }

  lemma DebitVerticalLoss(m: Market, kind: OptionType, k: real, w: real, g: GeometrySpec, credit: real)
    requires Indexed(m) && w > 0.0 && DebitVertical(m, kind, k, w) == Some(g)
    ensures ClosedForm(g, credit)
  {
    hide ProveBoundedLoss, TerminalPayoff, NetCallQuantity;
    var sell := if kind == Call then k + w else k - w;
    AssembledLegs(m, if kind == Call then CallDebitSpread else PutDebitSpread, [(kind, k, 1), (kind, sell, -1)], g);
    var a, b := Legs(g)[0], Legs(g)[1];
    assert Legs(g) == [a, b];
    forall s | s >= 0.0 ensures credit <= TerminalPayoff(Legs(g), credit, s) { TwoLegs(a, b, credit, s); }
    TwoLegs(a, b, credit, k);
    LossFromFloor(Legs(g), credit, 0.0, k);
  }

  lemma SingleLoss(m: Market, kind: OptionType, k: real, g: GeometrySpec, credit: real)
    requires Indexed(m) && Single(m, kind, k) == Some(g)
    ensures ClosedForm(g, credit)
  {
    hide ProveBoundedLoss, TerminalPayoff, NetCallQuantity;
    AssembledLegs(m, if kind == Call then LongCall else LongPut, [(kind, k, 1)], g);
    var a := Legs(g)[0];
    assert Legs(g) == [a];
    forall s | s >= 0.0 ensures credit <= TerminalPayoff(Legs(g), credit, s) { OneLeg(a, credit, s); }
    OneLeg(a, credit, k);
    LossFromFloor(Legs(g), credit, 0.0, k);
  }

  lemma WingsLoss(m: Market, family: Family, kp: real, kc: real, w: real, g: GeometrySpec, credit: real)
    requires family in {IronCondor, IronButterfly}
    requires Indexed(m) && w > 0.0 && Wings(m, family, kp, kc, w) == Some(g)
    ensures ClosedForm(g, credit)
    ensures kp - kc <= w ==> WorstOutflow(g) == w
  {
    hide ProveBoundedLoss, TerminalPayoff, NetCallQuantity;
    AssembledLegs(m, family, [(Put, kp, -1), (Put, kp - w, 1), (Call, kc, -1), (Call, kc + w, 1)], g);
    var a, b, c, d := Legs(g)[0], Legs(g)[1], Legs(g)[2], Legs(g)[3];
    assert Legs(g) == [a, b, c, d];
    var x := WorstOutflow(g);
    forall s | s >= 0.0 ensures credit - x <= TerminalPayoff(Legs(g), credit, s) { FourLegs(a, b, c, d, credit, s); }
    FourLegs(a, b, c, d, credit, kp - w);
    LossFromFloor(Legs(g), credit, x, kp - w);
  }

  lemma BrokenWingLoss(m: Market, atm: real, near: real, far: real, g: GeometrySpec, credit: real)
    requires Indexed(m) && near > 0.0 && BrokenWing(m, atm, near, far) == Some(g)
    ensures ClosedForm(g, credit) && WorstOutflow(g) == far - near
  {
    hide ProveBoundedLoss, TerminalPayoff, NetCallQuantity;
    AssembledLegs(m, BrokenWingButterfly, [(Put, atm + near, 1), (Put, atm, -2), (Put, atm - far, 1)], g);
    var a, b, c := Legs(g)[0], Legs(g)[1], Legs(g)[2];
    assert Legs(g) == [a, b, c];
    var x := far - near;
    forall s | s >= 0.0 ensures credit - x <= TerminalPayoff(Legs(g), credit, s) { ThreeLegs(a, b, c, credit, s); }
    ThreeLegs(a, b, c, credit, atm - far);
    LossFromFloor(Legs(g), credit, x, atm - far);
  }

  lemma StraddleLoss(m: Market, atm: real, g: GeometrySpec, credit: real)
    requires Indexed(m) && Straddle(m, atm) == Some(g)
    ensures ClosedForm(g, credit)
  {
    hide ProveBoundedLoss, TerminalPayoff, NetCallQuantity;
    AssembledLegs(m, LongStraddle, [(Call, atm, 1), (Put, atm, 1)], g);
    var a, b := Legs(g)[0], Legs(g)[1];
    assert Legs(g) == [a, b];
    forall s | s >= 0.0 ensures credit <= TerminalPayoff(Legs(g), credit, s) { TwoLegs(a, b, credit, s); }
    TwoLegs(a, b, credit, atm);
    LossFromFloor(Legs(g), credit, 0.0, atm);
  }

  lemma StrangleLoss(m: Market, kc: real, kp: real, g: GeometrySpec, credit: real)
    requires Indexed(m) && Strangle(m, kc, kp) == Some(g)
    ensures ClosedForm(g, credit)
  {
    hide ProveBoundedLoss, TerminalPayoff, NetCallQuantity;
    StrangleStraddlesSpot(m, kc, kp);
    AssembledLegs(m, LongStrangle, [(Call, kc, 1), (Put, kp, 1)], g);
    var a, b := Legs(g)[0], Legs(g)[1];
    assert Legs(g) == [a, b];
    forall s | s >= 0.0 ensures credit <= TerminalPayoff(Legs(g), credit, s) { TwoLegs(a, b, credit, s); }
    TwoLegs(a, b, credit, m.spot);
    LossFromFloor(Legs(g), credit, 0.0, m.spot);
  }

  lemma StrangleStraddlesSpot(m: Market, kc: real, kp: real)
    requires Strangle(m, kc, kp).Some?
    ensures m.spot > 0.0 && kp < m.spot < kc
  {
    QuotientSign(kc - m.spot, m.spot);
    QuotientSign(m.spot - kp, m.spot);
  }

  lemma QuotientSign(x: real, d: real)
    requires d > 0.0
    ensures x / d > 0.0 <==> x > 0.0
    ensures x / d >= 0.0 <==> x >= 0.0
  {
    var q := x / d;
    assert q * d == x;
    ProductSign(d, q);
  }

  lemma BackspreadLoss(m: Market, kind: OptionType, sell: real, buy: real, g: GeometrySpec, credit: real)
    requires Indexed(m) && Backspread(m, kind, sell, buy) == Some(g)
    ensures ClosedForm(g, credit)
  {
    hide ProveBoundedLoss, TerminalPayoff, NetCallQuantity;
    AssembledLegs(m, if kind == Call then BackspreadCall else BackspreadPut, [(kind, sell, -1), (kind, buy, 2)], g);
    var a, b := Legs(g)[0], Legs(g)[1];
    assert Legs(g) == [a, b];
    var x := Abs(sell - buy);
    forall s | s >= 0.0 ensures credit - x <= TerminalPayoff(Legs(g), credit, s) { TwoLegs(a, b, credit, s); }
    TwoLegs(a, b, credit, buy);
    LossFromFloor(Legs(g), credit, x, buy);
  }

  lemma AtTheMoneyLoss(m: Market, g: GeometrySpec, credit: real)
    requires Indexed(m) && IsAtTheMoney(m, g) && forall w :: w in m.cfg.spreadWidths ==> w > 0.0
    ensures ClosedForm(g, credit)
  {
    hide ClosedForm, Wings, BrokenWing, Straddle;
    var atm := NearestStrike(m.strikes, m.spot);
    if w :| w in m.cfg.spreadWidths && Butterfly(m, atm, w) == Some(g) {
      WingsLoss(m, IronButterfly, atm, atm, w, g, credit);
    } else if near, far :|
        near in m.cfg.spreadWidths && far in m.cfg.spreadWidths && BrokenWing(m, atm, near, far) == Some(g) {
      BrokenWingLoss(m, atm, near, far, g, credit);
    } else {
      StraddleLoss(m, atm, g, credit);
    }
  }

  /** For positive widths the generic proof of every enumerated geometry is its family's closed form. */
  lemma LegalLossIsClosedForm(chain: seq<Quote>, spot: real, cfg: FactoryConfig, g: GeometrySpec, credit: real)
    requires MarketOf(chain, spot, cfg).Some? && IsLegal(MarketOf(chain, spot, cfg).value, g)
    requires forall w :: w in cfg.spreadWidths ==> w > 0.0
    ensures ClosedForm(g, credit)
  {
    hide ClosedForm, CreditVertical, DebitVertical, Single, Wings, BrokenWing, Straddle, Strangle, Backspread, IsOtm,
        IsLongStrike,
         IsAtTheMoney;
    var m := MarketOf(chain, spot, cfg).value;
    assert Indexed(m);
    if kind, k, w :| w in cfg.spreadWidths && CreditVertical(m, kind, k, w) == Some(g) {
      CreditVerticalLoss(m, kind, k, w, g, credit);
    } else if kind, k, w :| w in cfg.spreadWidths && DebitVertical(m, kind, k, w) == Some(g) {
      DebitVerticalLoss(m, kind, k, w, g, credit);
    } else if kind, k :| Single(m, kind, k) == Some(g) {
      SingleLoss(m, kind, k, g, credit);
    } else if w, kp, kc :| w in cfg.spreadWidths && Condor(m, w, kp, kc) == Some(g) {
      WingsLoss(m, IronCondor, kp, kc, w, g, credit);
    } else if kc, kp :| Strangle(m, kc, kp) == Some(g) {
      StrangleLoss(m, kc, kp, g, credit);
    } else if kind, sell, buy :| Backspread(m, kind, sell, buy) == Some(g) {
      BackspreadLoss(m, kind, sell, buy, g, credit);
    } else {
      AtTheMoneyLoss(m, g, credit);
    }
  }

  /** With shorts out of the money the wings never overlap: a condor loses exactly its width. */
  lemma CondorLossIsWidth(m: Market, g: GeometrySpec, credit: real)
    requires Indexed(m) && IsCondor(m, g)
    requires (forall w :: w in m.cfg.spreadWidths ==> w > 0.0) && m.cfg.shortMinOtm >= 0.0
    ensures |g.legs| == 4 && g.family == IronCondor
    ensures WorstOutflow(g) == Strike(g, 0) - Strike(g, 1) == Strike(g, 3) - Strike(g, 2)
    ensures ProveBoundedLoss(Legs(g), credit).maximumLoss == Max(Strike(g, 0) - Strike(g, 1) - credit, 0.0)
  {
    hide Condor, Wings, ClosedForm, ProveBoundedLoss;
    var w, kp, kc :|
      w in m.cfg.spreadWidths && IsOtm(m, Put, kp) && IsOtm(m, Call, kc) && Condor(m, w, kp, kc) == Some(g);
    OtmAroundSpot(m, kp, kc);
    CondorWidths(m, w, kp, kc, g, credit);
  }

  lemma OtmAroundSpot(m: Market, kp: real, kc: real)
    requires IsOtm(m, Put, kp) && IsOtm(m, Call, kc) && m.cfg.shortMinOtm >= 0.0
    ensures kp <= m.spot <= kc
  {
    QuotientSign(m.spot - kp, m.spot);
    QuotientSign(kc - m.spot, m.spot);
  }

  lemma CondorWidths(m: Market, w: real, kp: real, kc: real, g: GeometrySpec, credit: real)
    requires Indexed(m) && w > 0.0 && kp <= kc && Condor(m, w, kp, kc) == Some(g)
    ensures |g.legs| == 4 && g.family == IronCondor
    ensures WorstOutflow(g) == Strike(g, 0) - Strike(g, 1) == Strike(g, 3) - Strike(g, 2)
    ensures ProveBoundedLoss(Legs(g), credit).maximumLoss == Max(Strike(g, 0) - Strike(g, 1) - credit, 0.0)
  {
    hide ProveBoundedLoss, TerminalPayoff, NetCallQuantity;
    AssembledLegs(m, IronCondor, [(Put, kp, -1), (Put, kp - w, 1), (Call, kc, -1), (Call, kc + w, 1)], g);
    WingsLoss(m, IronCondor, kp, kc, w, g, credit);
  }

  // ----- Net calls, for any widths -----

  function NetOrdered(orders: seq<Order>): int {
    if orders == [] then 0
    else
      var last := orders[|orders| - 1];
      NetOrdered(orders[..|orders| - 1]) + if last.0 == Call then last.2 else 0
  }

  lemma {:induction false} NetOfLegs(orders: seq<Order>, legs: seq<Leg>)
    requires |orders| == |legs| && forall i :: 0 <= i < |orders| ==> legs[i] == Ordered(orders[i])
    ensures NetCallQuantity(legs) == NetOrdered(orders)
  {
    if orders != [] {
      NetOfLegs(orders[..|orders| - 1], legs[..|legs| - 1]);
    }
  }

  lemma AssembledNet(m: Market, family: Family, orders: seq<Order>, g: GeometrySpec)
    requires Indexed(m) && Assemble(m, family, orders) == Some(g)
    ensures NetCallQuantity(Legs(g)) == NetOrdered(orders)
  {
    AssembledLegs(m, family, orders, g);
    NetOfLegs(orders, Legs(g));
  }

  lemma NetOne(a: Order)
    ensures NetOrdered([a]) == if a.0 == Call then a.2 else 0
  {
    assert [a][..0] == [];
  }

  lemma NetTwo(a: Order, b: Order)
    ensures NetOrdered([a, b]) == (if a.0 == Call then a.2 else 0) + if b.0 == Call then b.2 else 0
  {
    assert [a, b][..1] == [a];
    NetOne(a);
  }

  lemma NetFour(a: Order, b: Order, c: Order, d: Order)
    ensures NetOrdered([a, b, c]) == NetOrdered([a, b]) + if c.0 == Call then c.2 else 0
    ensures NetOrdered([a, b, c, d]) == NetOrdered([a, b, c]) + if d.0 == Call then d.2 else 0
  {
    assert [a, b, c][..2] == [a, b];
    assert [a, b, c, d][..3] == [a, b, c];
  }

  lemma WingsNet(m: Market, family: Family, kp: real, kc: real, w: real, g: GeometrySpec)
    requires Indexed(m) && Wings(m, family, kp, kc, w) == Some(g)
    ensures NetCallQuantity(Legs(g)) == 0
  {
    var a: Order, b: Order, c: Order, d: Order := (Put, kp, -1), (Put, kp - w, 1), (Call, kc, -1), (Call, kc + w, 1);
    AssembledNet(m, family, [a, b, c, d], g);
    NetFour(a, b, c, d);
    NetTwo(a, b);
  }

  lemma BrokenWingNet(m: Market, atm: real, near: real, far: real, g: GeometrySpec)
    requires Indexed(m) && BrokenWing(m, atm, near, far) == Some(g)
    ensures NetCallQuantity(Legs(g)) == 0
  {
    var a: Order, b: Order, c: Order := (Put, atm + near, 1), (Put, atm, -2), (Put, atm - far, 1);
    AssembledNet(m, BrokenWingButterfly, [a, b, c], g);
    NetFour(a, b, c, c);
    NetTwo(a, b);
  }

  lemma TwoLegNet(m: Market, family: Family, a: Order, b: Order, g: GeometrySpec)
    requires Indexed(m) && Assemble(m, family, [a, b]) == Some(g) && a.2 + b.2 >= 0
    requires a.0 == b.0 || (a.2 >= 0 && b.2 >= 0)
    ensures NetCallQuantity(Legs(g)) >= 0
  {
    AssembledNet(m, family, [a, b], g);
    NetTwo(a, b);
  }

  lemma AtTheMoneyNet(m: Market, g: GeometrySpec)
    requires Indexed(m) && IsAtTheMoney(m, g)
    ensures NetCallQuantity(Legs(g)) >= 0
  {
    hide NetCallQuantity, Assemble, Wings, BrokenWing;
    var atm := NearestStrike(m.strikes, m.spot);
    if w :| Butterfly(m, atm, w) == Some(g) {
      WingsNet(m, IronButterfly, atm, atm, w, g);
    } else if near, far :| BrokenWing(m, atm, near, far) == Some(g) {
      BrokenWingNet(m, atm, near, far, g);
    } else {
      TwoLegNet(m, LongStraddle, (Call, atm, 1), (Put, atm, 1), g);
    }
  }

  lemma LegalNet(m: Market, g: GeometrySpec)
    requires Indexed(m) && IsLegal(m, g)
    ensures NetCallQuantity(Legs(g)) >= 0
  {
    hide NetCallQuantity, IsOtm, IsLongStrike, Assemble, Wings, BrokenWing, IsAtTheMoney;
    if kind, k, w :| CreditVertical(m, kind, k, w) == Some(g) {
      var long := if kind == Put then k - w else k + w;
      var family := if kind == Put then BullPutCreditSpread else BearCallCreditSpread;
      TwoLegNet(m, family, (kind, k, -1), (kind, long, 1), g);
    } else if kind, k, w :| DebitVertical(m, kind, k, w) == Some(g) {
      var sell := if kind == Call then k + w else k - w;
      TwoLegNet(m, if kind == Call then CallDebitSpread else PutDebitSpread, (kind, k, 1), (kind, sell, -1), g);
    } else if kind, k :| Single(m, kind, k) == Some(g) {
      AssembledNet(m, if kind == Call then LongCall else LongPut, [(kind, k, 1)], g);
      NetOne((kind, k, 1));
    } else if w, kp, kc :| Condor(m, w, kp, kc) == Some(g) {
      WingsNet(m, IronCondor, kp, kc, w, g);
    } else if kc, kp :| Strangle(m, kc, kp) == Some(g) {
      TwoLegNet(m, LongStrangle, (Call, kc, 1), (Put, kp, 1), g);
    } else if kind, sell, buy :| Backspread(m, kind, sell, buy) == Some(g) {
      TwoLegNet(m, if kind == Call then BackspreadCall else BackspreadPut, (kind, sell, -1), (kind, buy, 2), g);
    } else {
      AtTheMoneyNet(m, g);
    }
  }

  /** Whatever the widths, no enumerated geometry is net short calls, so its loss proof is never refused. */
  lemma LegalNeverUnbounded(chain: seq<Quote>, spot: real, cfg: FactoryConfig, g: GeometrySpec, credit: real)
    requires MarketOf(chain, spot, cfg).Some? && IsLegal(MarketOf(chain, spot, cfg).value, g)
    ensures NetCallQuantity(Legs(g)) >= 0 && !ProveBoundedLoss(Legs(g), credit).unbounded
  {
    hide NetCallQuantity, ProveBoundedLoss, IsLegal;
    LegalNet(MarketOf(chain, spot, cfg).value, g);
    MaximumLossIsExact(Legs(g), credit);
  }
}
