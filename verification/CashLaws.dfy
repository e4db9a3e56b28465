/** What fills cost, in contracts, prices and fees: the cash laws of runs in the orders' own terms
    (src/spy_der/execution/accounts.py, src/spy_der/execution/simulator.py). */
module CashLaws {
  import opened Options
  import opened RealSeqs
  import opened Orders
  import opened Accounts
  import opened Simulator
  import opened ExecutionRuns

  // ----- Sums over fills -----

  /** Every contract at its price, and the fees. */
  function Outlay(fills: seq<Fill>): real {
    if fills == [] then 0.0
    else
      var last := fills[|fills| - 1];
      Outlay(fills[..|fills| - 1]) + Priced(last.quantity, last.price) + last.fees
  }

  function Priced(quantity: int, price: real): real { quantity as real * price }

  lemma CostIsOutlay(fill: Fill)
    ensures Cost(fill) == Priced(fill.quantity, fill.price) + fill.fees
    ensures Notional(fill) == Priced(fill.quantity, fill.price)
  {
  }

  function AccountFillsOn(ledger: seq<Entry>, account: string, debit: bool): seq<Fill> {
    if ledger == [] then []
    else
      var last, front := ledger[|ledger| - 1], AccountFillsOn(ledger[..|ledger| - 1], account, debit);
      if last.FillEntry? && last.fill.accountId == account && last.debit == debit then front + [last.fill] else front
  }

  function OrderFillsOn(ledger: seq<Entry>, id: string, debit: bool): seq<Fill> {
    if ledger == [] then []
    else
      var last, front := ledger[|ledger| - 1], OrderFillsOn(ledger[..|ledger| - 1], id, debit);
      if last.FillEntry? && last.fill.orderId == id && last.debit == debit then front + [last.fill] else front
  }

  /** What the entries booked for an order moved. */
  function Moved(ledger: seq<Entry>, id: string): real {
    if ledger == [] then 0.0
    else
      var last := ledger[|ledger| - 1];
      Moved(ledger[..|ledger| - 1], id) + if last.FillEntry? && last.fill.orderId == id then Change(last) else 0.0
  }

  lemma OutlayExtends(fills: seq<Fill>, fill: Fill)
    ensures Outlay(fills + [fill]) == Outlay(fills) + Priced(fill.quantity, fill.price) + fill.fees
  {
    hide Priced;
    assert (fills + [fill])[..|fills|] == fills;
  }

  lemma {:induction false} OutlayIsTotals(fills: seq<Fill>)
    ensures Outlay(fills) == TotalNotional(fills) + TotalFees(fills)
  {
    hide Priced, Notional;
    if fills != [] {
      OutlayIsTotals(fills[..|fills| - 1]);
      CostIsOutlay(fills[|fills| - 1]);
    }
  }

  /** Splitting a fill in two at the same price costs the same. */
  lemma SplittingCostsTheSame(whole: Fill, a: Fill, b: Fill)
    requires whole.price == a.price == b.price
    requires whole.quantity == a.quantity + b.quantity && whole.fees == a.fees + b.fees
    ensures Cost(whole) == Cost(a) + Cost(b)
  {
    SharedPrice(a.quantity as real, b.quantity as real, whole.price);
  }

  lemma SharedPrice(m: real, n: real, price: real)
    ensures (m + n) * price == m * price + n * price
  {
  }

  // ----- Cash in the orders' own terms -----

  /** What is booked to an account: its sell-booked fills and realized P&L, less its buy-booked fills. */
  lemma {:induction false} BookedIsOutlays(ledger: seq<Entry>, account: string)
    ensures Booked(ledger, account)
         == Outlay(AccountFillsOn(ledger, account, false)) - Outlay(AccountFillsOn(ledger, account, true))
            + BookedPnl(ledger, account)
  {
    hide Cost, Priced, Outlay;
    if ledger == [] {
      NoOutlay();
    } else {
      var front, last := ledger[..|ledger| - 1], ledger[|ledger| - 1];
      BookedIsOutlays(front, account);
      if last.FillEntry? {
        OutlayExtends(AccountFillsOn(front, account, last.debit), last.fill);
        CostIsOutlay(last.fill);
      }
    }
  }

  /** What is booked for an order: its sell-booked fills less its buy-booked fills. */
  lemma {:induction false} MovedIsOutlays(ledger: seq<Entry>, id: string)
    ensures Moved(ledger, id) == Outlay(OrderFillsOn(ledger, id, false)) - Outlay(OrderFillsOn(ledger, id, true))
  {
    hide Cost, Priced, Outlay;
    if ledger == [] {
      NoOutlay();
    } else {
      var front, last := ledger[..|ledger| - 1], ledger[|ledger| - 1];
      MovedIsOutlays(front, id);
      if last.FillEntry? {
        OutlayExtends(OrderFillsOn(front, id, last.debit), last.fill);
        CostIsOutlay(last.fill);
      }
    }
  }

  ghost predicate OneSided(ledger: seq<Entry>, id: string, debit: bool) {
    forall e :: e in ledger && e.FillEntry? && e.fill.orderId == id ==> e.debit == debit
  }

  lemma {:induction false} OneSideHasAll(ledger: seq<Entry>, id: string, debit: bool)
    requires OneSided(ledger, id, debit)
    ensures OrderFillsOn(ledger, id, debit) == FillsOf(ledger, id) && OrderFillsOn(ledger, id, !debit) == []
  {
    if ledger != [] {
      assert ledger[|ledger| - 1] in ledger;
      OneSideHasAll(ledger[..|ledger| - 1], id, debit);
    }
  }

  /** Over every run from the empty world: cash is the starting cash, less every contract bought at its price
      with its fees, plus every contract sold at its price with its fees as computed, plus realized P&L. */
  lemma RunCashIsOutlays(cfg: Config, startingCash: real, steps: seq<Step>, worlds: seq<World>, n: nat, account: string)
    requires IsChain(cfg, steps, worlds) && worlds[0] == EmptyWorld(startingCash) && n <= |steps|
    requires account in worlds[n].book.accounts
    ensures var ledger := worlds[n].book.ledger;
      worlds[n].book.accounts[account].cash
        == startingCash - Outlay(AccountFillsOn(ledger, account, true))
           + Outlay(AccountFillsOn(ledger, account, false)) + BookedPnl(ledger, account)
  {
    RunConservesCash(cfg, startingCash, steps, worlds, n);
    BookedIsOutlays(worlds[n].book.ledger, account);
  }

  /** Over every run: an order filled on one side only moved its notional and its fees, out for a buy. */
  lemma RunOrderMovesItsTotals(cfg: Config, startingCash: real, steps: seq<Step>, worlds: seq<World>, n: nat,
                               id: string,
                               debit: bool)
    requires IsChain(cfg, steps, worlds) && worlds[0] == EmptyWorld(startingCash) && n <= |steps|
    requires id in worlds[n].orders && OneSided(worlds[n].book.ledger, id, debit)
    ensures var o := worlds[n].orders[id];
      var total := TotalNotional(o.fills) + o.fees;
      && Outlay(o.fills) == total
      && Moved(worlds[n].book.ledger, id) == if debit then -total else total
  {
    hide Outlay, Moved, FillsOf, OrderFillsOn, TotalNotional, TotalFees, OneSided;
    RunConservesCash(cfg, startingCash, steps, worlds, n);
    MovedIsOutlays(worlds[n].book.ledger, id);
    OneSideHasAll(worlds[n].book.ledger, id, debit);
    var o := worlds[n].orders[id];
    assert OrderSound(o);
    OutlayIsTotals(o.fills);
    NoOutlay();
  }

  lemma NoOutlay()
    ensures Outlay([]) == 0.0
  {
  }

  // ----- The terms of a fill -----

  /** The fill a quote books, if any. */
  ghost predicate FillBooked(w: World, r: Result, fill: Fill, debit: bool) {
    r.world.book.ledger == w.book.ledger + [FillEntry(fill, debit)]
  }

  /** A fill is booked at the quoted price, which is no worse than the limit of the intent; every contract pays
      the fee of the intent, or the configured one if that is zero; and no more is filled than remains. */
  lemma FillTerms(w: World, cfg: Config, intent: Intent, id: string, price: real, now: int, roll: real, fill: Fill,
                  debit: bool)
    requires WorldSound(w) && id in w.orders && !IsTerminal(w.orders[id].status)
    requires FillBooked(w, FillAttempted(w, cfg, intent, id, price, now, roll), fill, debit)
    ensures fill.price == price && debit == IsBuy(intent.side)
    ensures if IsBuy(intent.side) then price <= intent.limitPrice else price >= intent.limitPrice
    ensures fill.fees
      == fill.quantity as real * (if intent.feePerContract != 0.0 then intent.feePerContract else cfg.feePerContract)
    ensures fill.orderId == id && fill.accountId == w.orders[id].accountId
    ensures 1 <= fill.quantity <= w.orders[id].requested - w.orders[id].filled
    ensures roll <= if intent.fillProbability < 0.0 then cfg.defaultFillProbability else intent.fillProbability
  {
    hide Applied, WithFill, Conserved, OrderSound;
    FillCases(w, cfg, intent, id, price, now, roll);
    var o := w.orders[id];
    var r := FillAttempted(w, cfg, intent, id, price, now, roll);
    if WillFill(o, cfg, intent, price, roll) && IsIsolated(o.accountId) {
      var booked, side := NewFill(o, cfg, intent, price, now, roll), IsBuy(intent.side);
      LedgerAfter(w.book, booked, side);
      if Applied(w.book, booked, side).error.None? {
        LastBooked(w.book.ledger, FillEntry(booked, side), FillEntry(fill, debit));
      } else {
        NothingLast(w.book.ledger, FillEntry(fill, debit));
      }
    } else {
      NothingLast(w.book.ledger, FillEntry(fill, debit));
    }
  }

  lemma LedgerAfter(b: Book, fill: Fill, debit: bool)
    ensures Applied(b, fill, debit).book.ledger
         == b.ledger + if Applied(b, fill, debit).error.None? then [FillEntry(fill, debit)] else []
  {
  }

  lemma LastBooked(ledger: seq<Entry>, e: Entry, e': Entry)
    requires ledger + [e] == ledger + [e']
    ensures e == e'
  {
    assert (ledger + [e])[|ledger|] == (ledger + [e'])[|ledger|];
  }

  lemma NothingLast(ledger: seq<Entry>, e: Entry)
    ensures ledger != ledger + [e]
  {
    assert |ledger + [e]| == |ledger| + 1;
  }

  /** And it is booked whenever these terms can be met: something remains, the quote is within the limit, the
      roll within the probability, and the account is open, not blocked, and can pay. */
  lemma FillHappensExactly(w: World, cfg: Config, intent: Intent, id: string, price: real, now: int, roll: real)
    requires WorldSound(w) && id in w.orders && !IsTerminal(w.orders[id].status)
    ensures var o := w.orders[id];
      var p := if intent.fillProbability < 0.0 then cfg.defaultFillProbability else intent.fillProbability;
      var inLimit := if IsBuy(intent.side) then price <= intent.limitPrice else price >= intent.limitPrice;
      FillAttempted(w, cfg, intent, id, price, now, roll).world.book.ledger != w.book.ledger <==>
        && o.filled < o.requested && inLimit && roll <= p && o.accountId in w.book.accounts
        && !w.book.accounts[o.accountId].blocked
        && CanPay(w.book.accounts[o.accountId].cash, cfg, intent, price, o.requested - o.filled, p, roll)
  {
    hide WithFill, Conserved, OrderSound, CanPay;
    FillCases(w, cfg, intent, id, price, now, roll);
    AccountsAreIsolated(w);
    var o := w.orders[id];
    assert OrderBacked(w.book, o);
    if WillFill(o, cfg, intent, price, roll) && IsIsolated(o.accountId) {
      var booked, side := NewFill(o, cfg, intent, price, now, roll), IsBuy(intent.side);
      LedgerAfter(w.book, booked, side);
      NothingLast(w.book.ledger, FillEntry(booked, side));
      PaysExactly(w, cfg, intent, id, price, now, roll);
    }
  }

  lemma AccountsAreIsolated(w: World)
    requires WorldSound(w)
    ensures forall id :: id in w.book.accounts ==> IsIsolated(id)
  {
    forall id | id in w.book.accounts ensures IsIsolated(id) { assert AccountConserved(w.book, id); }
  }

  /** A partial fill takes half the remainder, at least one contract; it happens only when partial fills are
      allowed, more than one contract remains, and the roll is in the upper half of the probability. */
  function Contracts(cfg: Config, remaining: int, p: real, roll: real): int {
    if !cfg.allowPartials || remaining <= 1 || roll <= p / 2.0 then remaining
    else if remaining <= 3 then 1
    else remaining / 2
  }

  ghost predicate CanPay(cash: real, cfg: Config, intent: Intent, price: real, remaining: int, p: real, roll: real) {
    var contracts := Contracts(cfg, remaining, p, roll) as real;
    var fee := if intent.feePerContract != 0.0 then intent.feePerContract else cfg.feePerContract;
    if IsBuy(intent.side) then contracts * (price + fee) <= cash else contracts * (price + fee) >= -cash
  }

  lemma PaysExactly(w: World, cfg: Config, intent: Intent, id: string, price: real, now: int, roll: real)
    requires WorldSound(w) && id in w.orders && WillFill(w.orders[id], cfg, intent, price, roll)
    requires IsIsolated(w.orders[id].accountId)
    ensures var o := w.orders[id];
      var fill, side := NewFill(o, cfg, intent, price, now, roll), IsBuy(intent.side);
      Applied(w.book, fill, side).error.None? <==>
        && CanOpen(w.book, o.accountId)
        && var acct := Ensured(w.book, o.accountId).book.accounts[o.accountId];
          !acct.blocked && CanPay(acct.cash, cfg, intent, price, o.requested - o.filled, Probability(cfg, intent), roll)
  {
    hide WithFill, Conserved, OrderSound;
    var o := w.orders[id];
    var fill := NewFill(o, cfg, intent, price, now, roll);
    SharedPrice(price, FeePerContract(cfg, intent), fill.quantity as real);
  }

  // ----- The average price -----

  /** The average fill price lies within the prices paid, up to half a tick. */
  lemma AverageWithinPrices(w: World, id: string, lo: real, hi: real)
    requires WorldSound(w) && id in w.orders && w.orders[id].fills != []
    requires forall f :: f in w.orders[id].fills ==> lo <= f.price <= hi
    ensures w.orders[id].avgFillPrice.Some?
    ensures lo - 0.00005 <= w.orders[id].avgFillPrice.value <= hi + 0.00005
  {
    var o := w.orders[id];
    assert OrderSound(o);
    hide WorldSound;
    AverageOfSound(o, lo, hi);
  }

  lemma AverageOfSound(o: OrderState, lo: real, hi: real)
    requires OrderSound(o) && o.fills != [] && forall f :: f in o.fills ==> lo <= f.price <= hi
    ensures o.avgFillPrice.Some? && lo - 0.00005 <= o.avgFillPrice.value <= hi + 0.00005
  {
    hide Quantize, TotalNotional, TotalQuantity, TotalFees;
    NotionalBounds(o.fills, lo, hi);
    ShareWithin(TotalNotional(o.fills), o.filled as real, lo, hi);
    QuantizeWithinHalfTick(TotalNotional(o.fills) / o.filled as real);
  }

  lemma {:induction false} NotionalBounds(fills: seq<Fill>, lo: real, hi: real)
    requires forall f :: f in fills ==> lo <= f.price <= hi
    ensures Priced(TotalQuantity(fills), lo) <= TotalNotional(fills) <= Priced(TotalQuantity(fills), hi)
  {
    if fills != [] {
      hide Notional, Priced;
      var front, last := fills[..|fills| - 1], fills[|fills| - 1];
      NotionalBounds(front, lo, hi);
      assert last in fills;
      CostIsOutlay(last);
      PricedWithin(last.quantity, last.price, lo, hi);
      PricedTogether(TotalQuantity(front), last.quantity, lo);
      PricedTogether(TotalQuantity(front), last.quantity, hi);
    }
  }

  lemma PricedTogether(m: int, n: int, price: real)
    ensures Priced(m + n, price) == Priced(m, price) + Priced(n, price)
  {
    SharedPrice(m as real, n as real, price);
  }

  lemma PricedWithin(n: int, price: real, lo: real, hi: real)
    requires n >= 0 && lo <= price <= hi
    ensures Priced(n, lo) <= Priced(n, price) <= Priced(n, hi)
  {
    ProductSign(n as real, price - lo);
    ProductSign(n as real, hi - price);
    Distribute(n as real, price, lo);
    Distribute(n as real, hi, price);
  }

  lemma ShareWithin(total: real, n: real, lo: real, hi: real)
    requires n > 0.0 && n * lo <= total <= n * hi
    ensures lo <= total / n <= hi
  {
    var q := total / n;
    QuotientTimes(total, n);
    Distribute(n, q, lo);
    Distribute(n, hi, q);
    ProductSign(n, q - lo);
    ProductSign(n, hi - q);
  }
}
