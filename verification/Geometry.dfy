/** Enumeration of the approved option structures on a chain
    (src/spy_der/candidates/geometry.py). */
module Geometry {
  import opened Options
  import opened RealSeqs
  import opened Payoff

  datatype Family =
    | LongCall | LongPut
    | CallDebitSpread | PutDebitSpread
    | BullPutCreditSpread | BearCallCreditSpread
    | IronCondor | IronButterfly | BrokenWingButterfly
    | LongStraddle | LongStrangle
    | BackspreadCall | BackspreadPut

  datatype QuoteData = QuoteData(kind: OptionType, strike: real, expiration: int, contractId: int)

  /** A leg on a quote with a non-positive strike would not be admitted. */
  type Quote = q: QuoteData | q.strike > 0.0 witness QuoteData(Call, 1.0, 0, 0)

  datatype FactoryConfig = FactoryConfig(
    spreadWidths: seq<real>,
    shortMinOtm: real,
    shortMaxOtm: real,
    longMinOtm: real,
    longMaxOtm: real,
    condorMaxSkew: real,
    families: Option<set<Family>>)

  datatype QuotedLegData = QuotedLegData(quote: Quote, quantity: int)

  type QuotedLeg = l: QuotedLegData | l.quantity != 0 witness QuotedLegData(QuoteData(Call, 1.0, 0, 0), 1)

  datatype GeometrySpec = GeometrySpec(family: Family, legs: seq<QuotedLeg>, expiration: int)

  type Key = (OptionType, real)

  /** The indexed chain together with the market and the configuration. */
  datatype Market = Market(expiration: int, byKey: map<Key, Quote>, strikes: seq<real>, spot: real, cfg: FactoryConfig)

  function KeyOf(q: Quote): Key { (q.kind, q.strike) }

  /** Each key maps to the last quote listed for it. */
  function IndexKeys(chain: seq<Quote>): (byKey: map<Key, Quote>)
    ensures forall k :: k in byKey ==> KeyOf(byKey[k]) == k && byKey[k] in chain
    ensures forall q :: q in chain ==> KeyOf(q) in byKey
  {
    if chain == [] then map[]
    else
      var last := chain[|chain| - 1];
      assert chain == chain[..|chain| - 1] + [last];
      IndexKeys(chain[..|chain| - 1])[KeyOf(last) := last]
  }

  function ListedStrikes(chain: seq<Quote>): seq<real> {
    seq(|chain|, i requires 0 <= i < |chain| => chain[i].strike)
  }

  function SingleExpiration(chain: seq<Quote>): Option<int> {
    if chain != [] && forall q :: q in chain ==> q.expiration == chain[0].expiration then Some(chain[0].expiration)
    else None
  }

  method IndexChain(chain: seq<Quote>)
    returns (expiration: Option<int>, byKey: map<Key, Quote>, strikes: seq<real>)
    ensures expiration == SingleExpiration(chain)
    ensures byKey == IndexKeys(chain)
    ensures strikes == SortedSet(ListedStrikes(chain))
  {
    hide SortedSet, SingleExpiration, Expirations, IndexKeys, ListedStrikes, KeyOf;
    IndexEmpty();
    byKey := map[];
    var expirations: set<int> := {};
    var listed: seq<real> := [];
    for i := 0 to |chain|
      invariant byKey == IndexKeys(chain[..i])
      invariant listed == ListedStrikes(chain[..i])
      invariant expirations == Expirations(chain[..i])
    {
      var quote := chain[i];
      assert chain[..i + 1] == chain[..i] + [quote];
      IndexExtend(chain[..i], quote);
      expirations := expirations + {quote.expiration};
      listed := listed + [quote.strike];
      byKey := byKey[KeyOf(quote) := quote];
    }
    assert chain[..|chain|] == chain;
    strikes := SortedSet(listed);
    ExpirationsDecide(chain);
    expiration := if |expirations| == 1 then Some(chain[0].expiration) else None;
    SingleIsFirst(chain);
  }

  lemma SingleIsFirst(chain: seq<Quote>)
    ensures SingleExpiration(chain).Some? ==> chain != [] && SingleExpiration(chain).value == chain[0].expiration
    ensures |Expirations(chain)| == 1 ==> chain != []
  {
  }

  ghost function Expirations(chain: seq<Quote>): set<int> { set q | q in chain :: q.expiration }

  lemma IndexEmpty()
    ensures IndexKeys([]) == map[] && ListedStrikes([]) == [] && Expirations([]) == {}
  {
  }

  lemma IndexExtend(front: seq<Quote>, quote: Quote)
    ensures IndexKeys(front + [quote]) == IndexKeys(front)[KeyOf(quote) := quote]
    ensures ListedStrikes(front + [quote]) == ListedStrikes(front) + [quote.strike]
    ensures Expirations(front + [quote]) == Expirations(front) + {quote.expiration}
  {
    assert (front + [quote])[..|front|] == front;
  }

  lemma ExpirationsDecide(chain: seq<Quote>)
    ensures |Expirations(chain)| == 1 <==> SingleExpiration(chain).Some?
  {
    if chain != [] {
      assert chain[0] in chain && chain[0].expiration in Expirations(chain);
      if q :| q in chain && q.expiration != chain[0].expiration {
        assert {q.expiration, chain[0].expiration} <= Expirations(chain);
        assert |{q.expiration, chain[0].expiration}| == 2;
        SubsetSize({q.expiration, chain[0].expiration}, Expirations(chain));
      } else {
        assert Expirations(chain) == {chain[0].expiration};
      }
    } else {
      assert Expirations(chain) == {};
    }
  }

  /** What enumeration works on, when there is anything to enumerate. */
  function MarketOf(chain: seq<Quote>, spot: real, cfg: FactoryConfig): Option<Market> {
    var expiration := SingleExpiration(chain);
    if spot <= 0.0 || expiration.None? then None
    else Some(Market(expiration.value, IndexKeys(chain), SortedSet(ListedStrikes(chain)), spot, cfg))
  }

  // ----- Strike filters -----

  /** Relative distance out of the money. */
  function Moneyness(kind: OptionType, strike: real, spot: real): real
    requires spot > 0.0
  {
    match kind
    case Call => (strike - spot) / spot
    case Put => (spot - strike) / spot
  }

  method StrikesWithin(strikes: seq<real>, spot: real, side: OptionType, least: real, most: real)
    returns (out: seq<real>)
    requires spot > 0.0
    ensures forall k :: k in out <==> k in strikes && least <= Moneyness(side, k, spot) <= most
  {
    out := [];
    for i := 0 to |strikes|
      invariant forall k :: k in out <==> k in strikes[..i] && least <= Moneyness(side, k, spot) <= most
    {
      assert strikes[..i + 1] == strikes[..i] + [strikes[i]];
      if least <= Moneyness(side, strikes[i], spot) <= most {
        out := out + [strikes[i]];
      }
    }
    assert strikes[..|strikes|] == strikes;
  }

  ghost predicate IsOtm(m: Market, side: OptionType, k: real) {
    m.spot > 0.0 && k in m.strikes && m.cfg.shortMinOtm <= Moneyness(side, k, m.spot) <= m.cfg.shortMaxOtm
  }

  ghost predicate IsLongStrike(m: Market, side: OptionType, k: real) {
    m.spot > 0.0 && k in m.strikes && m.cfg.longMinOtm <= Moneyness(side, k, m.spot) <= m.cfg.longMaxOtm
  }

  /** The first strike closest to spot. */
  function NearestStrike(strikes: seq<real>, spot: real): (k: real)
    requires strikes != []
    ensures k in strikes && forall j :: j in strikes ==> Abs(k - spot) <= Abs(j - spot)
  {
    if |strikes| == 1 then strikes[0]
    else
      assert strikes == [strikes[0]] + strikes[1..];
      var rest := NearestStrike(strikes[1..], spot);
      if Abs(strikes[0] - spot) <= Abs(rest - spot) then strikes[0] else rest
  }

  // ----- One structure -----

  type Order = o: (OptionType, real, int) | o.2 != 0 witness (Call, 1.0, 1)

  predicate Quoted(m: Market, order: Order) { (order.0, order.1) in m.byKey }

  /** The structure with these legs, when the family is allowed and every leg is quoted. */
  function Assemble(m: Market, family: Family, orders: seq<Order>): Option<GeometrySpec> {
    if (m.cfg.families.None? || family in m.cfg.families.value)
       && forall i :: 0 <= i < |orders| ==> Quoted(m, orders[i]) then
      Some(GeometrySpec(family,
                        seq(|orders|, i requires 0 <= i < |orders| =>
                            QuotedLegData(m.byKey[(orders[i].0, orders[i].1)], orders[i].2)),
                        m.expiration))
    else None
  }

  function CreditVertical(m: Market, kind: OptionType, short: real, width: real): Option<GeometrySpec> {
    var family := if kind == Put then BullPutCreditSpread else BearCallCreditSpread;
    var long := if kind == Put then short - width else short + width;
    if long !in m.strikes then None else Assemble(m, family, [(kind, short, -1), (kind, long, 1)])
  }

  function DebitVertical(m: Market, kind: OptionType, buy: real, width: real): Option<GeometrySpec> {
    var family := if kind == Call then CallDebitSpread else PutDebitSpread;
    var sell := if kind == Call then buy + width else buy - width;
    if sell !in m.strikes then None else Assemble(m, family, [(kind, buy, 1), (kind, sell, -1)])
  }

  function Single(m: Market, kind: OptionType, k: real): Option<GeometrySpec> {
    Assemble(m, if kind == Call then LongCall else LongPut, [(kind, k, 1)])
  }

  function Wings(m: Market, family: Family, kp: real, kc: real, width: real): Option<GeometrySpec> {
    if kp - width !in m.strikes || kc + width !in m.strikes then None
    else Assemble(m, family, [(Put, kp, -1), (Put, kp - width, 1), (Call, kc, -1), (Call, kc + width, 1)])
  }

  function Condor(m: Market, width: real, kp: real, kc: real): Option<GeometrySpec> {
    if m.spot > 0.0 && Abs((m.spot - kp) - (kc - m.spot)) / m.spot > m.cfg.condorMaxSkew then None
    else Wings(m, IronCondor, kp, kc, width)
  }

  function Butterfly(m: Market, atm: real, width: real): Option<GeometrySpec> {
    Wings(m, IronButterfly, atm, atm, width)
  }

  function BrokenWing(m: Market, atm: real, near: real, far: real): Option<GeometrySpec> {
    if far <= near || atm + near !in m.strikes || atm - far !in m.strikes then None
    else Assemble(m, BrokenWingButterfly, [(Put, atm + near, 1), (Put, atm, -2), (Put, atm - far, 1)])
  }

  function Straddle(m: Market, atm: real): Option<GeometrySpec> {
    Assemble(m, LongStraddle, [(Call, atm, 1), (Put, atm, 1)])
  }

  function Strangle(m: Market, kc: real, kp: real): Option<GeometrySpec> {
    if m.spot <= 0.0 then None
    else
      var callDist, putDist := (kc - m.spot) / m.spot, (m.spot - kp) / m.spot;
      if callDist <= 0.0 || putDist <= 0.0 || Abs(callDist - putDist) / callDist >= 0.5 then None
      else Assemble(m, LongStrangle, [(Call, kc, 1), (Put, kp, 1)])
  }

  function Backspread(m: Market, kind: OptionType, sell: real, buy: real): Option<GeometrySpec> {
    if (if kind == Call then buy <= sell else buy >= sell) then None
    else Assemble(m, if kind == Call then BackspreadCall else BackspreadPut, [(kind, sell, -1), (kind, buy, 2)])
  }

  // ----- Legal geometries -----

  ghost predicate IsCreditVertical(m: Market, kind: OptionType, g: GeometrySpec) {
    exists k, w :: IsOtm(m, kind, k) && w in m.cfg.spreadWidths && CreditVertical(m, kind, k, w) == Some(g)
  }

  ghost predicate IsDebitVertical(m: Market, kind: OptionType, g: GeometrySpec) {
    exists k, w :: IsLongStrike(m, kind, k) && w in m.cfg.spreadWidths && DebitVertical(m, kind, k, w) == Some(g)
  }

  ghost predicate IsSingle(m: Market, kind: OptionType, g: GeometrySpec) {
    exists k :: IsLongStrike(m, kind, k) && Single(m, kind, k) == Some(g)
  }

  ghost predicate IsCondor(m: Market, g: GeometrySpec) {
    exists w, kp, kc ::
        w in m.cfg.spreadWidths && IsOtm(m, Put, kp) && IsOtm(m, Call, kc) && Condor(m, w, kp, kc) == Some(g)
  }

  ghost predicate IsAtTheMoney(m: Market, g: GeometrySpec) {
    m.strikes != [] && var atm := NearestStrike(m.strikes, m.spot);
      || (exists w :: w in m.cfg.spreadWidths && Butterfly(m, atm, w) == Some(g))
      || (exists near, far ::
          near in m.cfg.spreadWidths && far in m.cfg.spreadWidths && BrokenWing(m, atm, near, far) == Some(g))
      || Straddle(m, atm) == Some(g)
  }

  ghost predicate IsStrangle(m: Market, g: GeometrySpec) {
    exists kc, kp :: IsOtm(m, Call, kc) && IsOtm(m, Put, kp) && Strangle(m, kc, kp) == Some(g)
  }

  ghost predicate IsBackspread(m: Market, kind: OptionType, g: GeometrySpec) {
    exists sell, buy :: IsLongStrike(m, kind, sell) && IsOtm(m, kind, buy) && Backspread(m, kind, sell, buy) == Some(g)
  }

  ghost predicate IsLegal(m: Market, g: GeometrySpec) {
    || IsCreditVertical(m, Put, g) || IsCreditVertical(m, Call, g)
    || IsDebitVertical(m, Call, g) || IsDebitVertical(m, Put, g)
    || IsSingle(m, Call, g) || IsSingle(m, Put, g)
    || IsCondor(m, g) || IsAtTheMoney(m, g) || IsStrangle(m, g)
    || IsBackspread(m, Call, g) || IsBackspread(m, Put, g)
  }

  // ----- Enumeration -----

  method Collect<A>(xs: seq<A>, build: A -> Option<GeometrySpec>) returns (out: seq<GeometrySpec>)
    ensures forall g :: g in out <==> exists x :: x in xs && build(x) == Some(g)
  {
    out := [];
    for i := 0 to |xs|
      invariant forall g :: g in out <==> exists x :: x in xs[..i] && build(x) == Some(g)
    {
      assert xs[..i + 1] == xs[..i] + [xs[i]];
      if build(xs[i]).Some? {
        out := out + [build(xs[i]).value];
      }
    }
    assert xs[..|xs|] == xs;
  }

  method CollectPairs<A, B>(xs: seq<A>, ys: seq<B>, build: (A, B) -> Option<GeometrySpec>)
    returns (out: seq<GeometrySpec>)
    ensures forall g :: g in out <==> exists x, y :: x in xs && y in ys && build(x, y) == Some(g)
  {
    out := [];
    for i := 0 to |xs|
      invariant forall g :: g in out <==> exists x, y :: x in xs[..i] && y in ys && build(x, y) == Some(g)
    {
      var x := xs[i];
      assert xs[..i + 1] == xs[..i] + [x];
      var row := Collect(ys, y => build(x, y));
      out := out + row;
    }
    assert xs[..|xs|] == xs;
  }

  method CreditVerticals(m: Market, kind: OptionType) returns (out: seq<GeometrySpec>)
    requires m.spot > 0.0
    ensures forall g :: g in out <==> IsCreditVertical(m, kind, g)
  {
    var shorts := StrikesWithin(m.strikes, m.spot, kind, m.cfg.shortMinOtm, m.cfg.shortMaxOtm);
    out := CollectPairs(shorts, m.cfg.spreadWidths, (k, w) => CreditVertical(m, kind, k, w));
  }

  method DebitVerticals(m: Market, kind: OptionType) returns (out: seq<GeometrySpec>)
    requires m.spot > 0.0
    ensures forall g :: g in out <==> IsDebitVertical(m, kind, g)
  {
    var buys := StrikesWithin(m.strikes, m.spot, kind, m.cfg.longMinOtm, m.cfg.longMaxOtm);
    out := CollectPairs(buys, m.cfg.spreadWidths, (k, w) => DebitVertical(m, kind, k, w));
  }

  method Singles(m: Market, kind: OptionType) returns (out: seq<GeometrySpec>)
    requires m.spot > 0.0
    ensures forall g :: g in out <==> IsSingle(m, kind, g)
  {
    var buys := StrikesWithin(m.strikes, m.spot, kind, m.cfg.longMinOtm, m.cfg.longMaxOtm);
    out := Collect(buys, k => Single(m, kind, k));
  }

  method Condors(m: Market) returns (out: seq<GeometrySpec>)
    requires m.spot > 0.0
    ensures forall g :: g in out <==> IsCondor(m, g)
  {
    var puts := StrikesWithin(m.strikes, m.spot, Put, m.cfg.shortMinOtm, m.cfg.shortMaxOtm);
    var calls := StrikesWithin(m.strikes, m.spot, Call, m.cfg.shortMinOtm, m.cfg.shortMaxOtm);
    var widths := m.cfg.spreadWidths;
    out := [];
    for i := 0 to |widths|
      invariant forall g :: g in out <==>
        exists w, kp, kc ::
            w in widths[..i] && IsOtm(m, Put, kp) && IsOtm(m, Call, kc) && Condor(m, w, kp, kc) == Some(g)
    {
      var width := widths[i];
      assert widths[..i + 1] == widths[..i] + [width];
      var some := CollectPairs(puts, calls, (kp, kc) => Condor(m, width, kp, kc));
      out := out + some;
    }
    assert widths[..|widths|] == widths;
  }

  method AtTheMoney(m: Market) returns (out: seq<GeometrySpec>)
    requires m.strikes != []
    ensures forall g :: g in out <==> IsAtTheMoney(m, g)
  {
    var atm := NearestStrike(m.strikes, m.spot);
    var widths := m.cfg.spreadWidths;
    var butterflies := Collect(widths, w => Butterfly(m, atm, w));
    var brokenWings := CollectPairs(widths, widths, (near, far) => BrokenWing(m, atm, near, far));
    out := butterflies + brokenWings;
    if Straddle(m, atm).Some? {
      out := out + [Straddle(m, atm).value];
    }
  }

  method Strangles(m: Market) returns (out: seq<GeometrySpec>)
    requires m.spot > 0.0
    ensures forall g :: g in out <==> IsStrangle(m, g)
  {
    var puts := StrikesWithin(m.strikes, m.spot, Put, m.cfg.shortMinOtm, m.cfg.shortMaxOtm);
    var calls := StrikesWithin(m.strikes, m.spot, Call, m.cfg.shortMinOtm, m.cfg.shortMaxOtm);
    out := CollectPairs(calls, puts, (kc, kp) => Strangle(m, kc, kp));
  }

  method Backspreads(m: Market, kind: OptionType) returns (out: seq<GeometrySpec>)
    requires m.spot > 0.0
    ensures forall g :: g in out <==> IsBackspread(m, kind, g)
  {
    var sells := StrikesWithin(m.strikes, m.spot, kind, m.cfg.longMinOtm, m.cfg.longMaxOtm);
    var buys := StrikesWithin(m.strikes, m.spot, kind, m.cfg.shortMinOtm, m.cfg.shortMaxOtm);
    out := CollectPairs(sells, buys, (sell, buy) => Backspread(m, kind, sell, buy));
  }

  /** Exactly the legal geometries of the chain; none when there is no single expiration. */
  method EnumerateGeometries(chain: seq<Quote>, spot: real, cfg: FactoryConfig) returns (out: seq<GeometrySpec>)
    ensures MarketOf(chain, spot, cfg).None? ==> out == []
    ensures MarketOf(chain, spot, cfg).Some? ==>
      forall g :: g in out <==> IsLegal(MarketOf(chain, spot, cfg).value, g)
  {
    hide IsCreditVertical, IsDebitVertical, IsSingle, IsCondor, IsAtTheMoney, IsStrangle, IsBackspread;
    if spot <= 0.0 {
      return [];
    }
    var expiration, byKey, strikes := IndexChain(chain);
    if expiration.None? || strikes == [] {
      StrikesListed(chain);
      return [];
    }
    var m := Market(expiration.value, byKey, strikes, spot, cfg);
    var putCredits := CreditVerticals(m, Put);
    var callCredits := CreditVerticals(m, Call);
    var callDebits := DebitVerticals(m, Call);
    var putDebits := DebitVerticals(m, Put);
    var longCalls := Singles(m, Call);
    var longPuts := Singles(m, Put);
    var condors := Condors(m);
    var atTheMoney := AtTheMoney(m);
    var strangles := Strangles(m);
    var callBackspreads := Backspreads(m, Call);
    var putBackspreads := Backspreads(m, Put);
    out := putCredits + callCredits + callDebits + putDebits + longCalls + longPuts
         + condors + atTheMoney + strangles + callBackspreads + putBackspreads;
  }

  lemma StrikesListed(chain: seq<Quote>)
    ensures SingleExpiration(chain).Some? ==> SortedSet(ListedStrikes(chain)) != []
  {
    if chain != [] {
      assert ListedStrikes(chain)[0] in SortedSet(ListedStrikes(chain));
    }
  }
}
