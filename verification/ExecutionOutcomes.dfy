/** Where each operation leaves an order and an account's positions, in the caller's own terms
    (src/spy_der/execution/simulator.py, accounts.py, state_machine.py). */
module ExecutionOutcomes {
  import opened Options
  import opened Orders
  import opened Accounts
  import opened Simulator
  import opened ExecutionRuns
  import opened CashLaws

  // ----- The table -----

  /** How far along a status is. */
  function Stage(status: Status): int {
    match status
    case Created => 0
    case Validated => 1
    case SubmittedSimulated | Routed => 2
    case Acknowledged => 3
    case PartiallyFilled | CancelPending => 4
    case _ => 5
  }

  /** Orders only move forward: back and forth only between a partial fill and a pending cancel. Every live status can
      end in an error and leads on to an end, and nothing leads back to CREATED. */
  lemma StatusesMoveForward(from: Status, to: Status)
    ensures to in Successors(from) ==>
      Stage(from) < Stage(to) || (from in {PartiallyFilled, CancelPending} && to == PartiallyFilled)
      || (from == PartiallyFilled && to == CancelPending)
    ensures Errored in Successors(from) <==> !IsTerminal(from)
    ensures IsTerminal(to) <==> Stage(to) == 5
    ensures Created !in Successors(from)
  {
  }

  /** Fills come only from Acknowledged, Routed, PartiallyFilled and CancelPending, and a full fill is
      allowed exactly where a partial one is. */
  lemma WhereFillsAreAllowed(status: Status)
    ensures Filled in Successors(status) <==> status in {Acknowledged, Routed, PartiallyFilled, CancelPending}
    ensures PartiallyFilled in Successors(status) <==> Filled in Successors(status)
    ensures CancelPending in Successors(status) <==>
      status in {SubmittedSimulated, Routed, Acknowledged, PartiallyFilled}
    ensures Expired in Successors(status)
       <==> status in {Validated, SubmittedSimulated, Routed, Acknowledged, PartiallyFilled}
  {
  }

  // ----- Orders -----

  ghost predicate Booked(w: World, w': World) { w'.book.ledger != w.book.ledger }

  /** What a try at filling does to its order: contracts are filled exactly when a fill is booked, and else it stays. */
  lemma FillOutcome(w: World, cfg: Config, intent: Intent, id: string, price: real, now: int, roll: real)
    requires WorldSound(w) && id in w.orders && !IsTerminal(w.orders[id].status)
    ensures var o, w' := w.orders[id], FillAttempted(w, cfg, intent, id, price, now, roll).world;
      && id in w'.orders
      && var o' := w'.orders[id];
        && (Booked(w, w') <==> o.filled < o'.filled) && (!Booked(w, w') ==> o' == o)
        && o'.filled <= o'.requested == o.requested
        && (Booked(w, w') ==>
              (o'.status, o'.reason)
                == if o'.filled == o.requested then (Filled, "filled") else (PartiallyFilled, "partial_fill"))
        && (Booked(w, w') ==> o.status in {Acknowledged, PartiallyFilled} && o'.updatedAt == now)
  {
    hide Applied, OrderSound, Conserved;
    FillCases(w, cfg, intent, id, price, now, roll);
    var o := w.orders[id];
    assert OrderSound(o);
    FilledBefore(o);
    if WillFill(o, cfg, intent, price, roll) && IsIsolated(o.accountId) {
      var fill, side := NewFill(o, cfg, intent, price, now, roll), IsBuy(intent.side);
      LedgerAfter(w.book, fill, side);
      NothingLast(w.book.ledger, FillEntry(fill, side));
    }
  }

  lemma FilledBefore(o: OrderState)
    requires OrderSound(o)
    ensures 0 <= o.filled <= o.requested
  {
  }

  /** A quote for a resting order: it expires exactly when the quote brings an intent past its deadline, and then
      nothing is booked; it gains contracts exactly when a fill is booked; otherwise it stays as it was. */
  lemma QuoteOutcome(w: World, cfg: Config, id: string, price: real, now: int, intent: Option<Intent>, roll: real)
    requires WorldSound(w) && id in w.orders && w.orders[id].status in {Acknowledged, PartiallyFilled}
    ensures var o, r := w.orders[id], Quoted(w, cfg, id, price, now, intent, roll);
      && id in r.world.orders
      && var o', late := r.world.orders[id],
                         intent.Some? && intent.value.expiresAt.Some? && now >= intent.value.expiresAt.value;
        && (o'.status == Expired <==> late)
        && (late ==> r.error == None && r.world.book == w.book && o'.fills == o.fills && o'.reason == "timeout")
        && (Booked(w, r.world) <==> o.filled < o'.filled)
        && (o'.status == Filled <==> o'.filled == o.requested)
        && (o'.status in {Filled, Expired, PartiallyFilled} || o' == o)
  {
    hide FillAttempted, OrderSound, Conserved;
    assert OrderSound(w.orders[id]);
    FilledExactly(w.orders[id]);
    var used := if intent.Some? then intent.value else RebuiltIntent(w.orders[id]);
    if !ExpiredAt(used, now) { FillOutcome(w, cfg, used, id, price, now, roll); }
  }

  lemma FilledExactly(o: OrderState)
    requires OrderSound(o)
    ensures o.status == Filled <==> o.filled == o.requested
    ensures o.filled <= o.requested
  {
  }

  /** Without an intent a quote books a fill exactly when it is at or below the order's limit, the roll is at most 1,
      the account is not blocked, and it can pay the price and 0.65 a contract: a buy, whatever the order was. */
  lemma UnaccompaniedQuoteFillsExactly(w: World, cfg: Config, id: string, price: real, now: int, roll: real)
    requires WorldSound(w) && id in w.orders && w.orders[id].status in {Acknowledged, PartiallyFilled}
    ensures var o := w.orders[id];
      o.accountId in w.book.accounts
      && var acct := w.book.accounts[o.accountId];
        Booked(w, Quoted(w, cfg, id, price, now, None, roll).world) <==>
          && price <= o.limitPrice && roll <= 1.0 && !acct.blocked
          && Contracts(cfg, o.requested - o.filled, 1.0, roll) as real * (price + 0.65) <= acct.cash
  {
    hide WorldSound, FillAttempted, Contracts, CanPay;
    var o := w.orders[id];
    RestingIsBacked(w, id);
    var acct := w.book.accounts[o.accountId];
    FillHappensExactly(w, cfg, RebuiltIntent(o), id, price, now, roll);
    RebuiltPays(acct.cash, cfg, o, price, o.requested - o.filled, roll);
  }

  lemma RestingIsBacked(w: World, id: string)
    requires WorldSound(w) && id in w.orders && w.orders[id].status in {Acknowledged, PartiallyFilled}
    ensures OrdersAdmissible(w) && w.orders[id].accountId in w.book.accounts
    ensures w.orders[id].filled < w.orders[id].requested
  {
    hide Conserved;
    assert OrderSound(w.orders[id]) && OrderBacked(w.book, w.orders[id]);
  }

  lemma RebuiltPays(cash: real, cfg: Config, o: OrderState, price: real, remaining: int, roll: real)
    requires o.accountId == "" || IsIsolated(o.accountId)
    ensures CanPay(cash, cfg, RebuiltIntent(o), price, remaining, 1.0, roll)
       <==> Contracts(cfg, remaining, 1.0, roll) as real * (price + 0.65) <= cash
  {
    hide Contracts;
  }

  /** A fresh submission to an account that can be opened: rejected exactly when the account is blocked and the
      configuration says so; otherwise expired exactly when it is past its deadline; otherwise filled as far as the
      one fill booked, if any, or left acknowledged. */
  lemma SubmitOutcome(w: World, cfg: Config, intent: Intent, contentHash: string, now: int, roll: real)
    requires WorldSound(w) && OrderIdOf(intent, contentHash) !in w.orders && CanOpen(w.book, intent.accountId)
    ensures var id, w' := OrderIdOf(intent, contentHash), Submitted(w, cfg, intent, contentHash, now, roll).world;
      var refused := cfg.rejectIfBlocked && intent.accountId in w.book.accounts
        && w.book.accounts[intent.accountId].blocked;
      var late := intent.expiresAt.Some? && now >= intent.expiresAt.value;
      && id in w'.orders
      && var o := w'.orders[id];
        && (o.status == Rejected <==> refused)
        && (o.status == Expired <==> !refused && late)
        && (o.status == Acknowledged <==> !refused && !late && !Booked(w, w'))
        && (o.status == Filled <==> o.filled == intent.contracts)
        && (o.status == PartiallyFilled <==> 0 < o.filled < intent.contracts)
        && (Booked(w, w') <==> o.filled > 0)
        && o.requested == intent.contracts && o.accountId == intent.accountId && o.limitPrice == intent.limitPrice
        && o.orderId == o.intentId == (if intent.intentId == "" then contentHash else intent.intentId)
  {
    hide FillAttempted, OrderSound, BookStep, Conserved;
    var id := OrderIdOf(intent, contentHash);
    var b' := Ensured(w.book, intent.accountId).book;
    if intent.accountId !in w.book.accounts { assert !b'.accounts[intent.accountId].blocked; }
    if !(cfg.rejectIfBlocked && b'.accounts[intent.accountId].blocked) && !ExpiredAt(intent, now) {
      EnsuredStepSound(w, intent.accountId);
      NewOrderRecorded(w, b', intent, id, now, Acknowledged, "acked");
      RecordedSound(intent, id, now, Acknowledged, "acked");
      var w1 := World(b', w.orders[id := Recorded(intent, id, now, Acknowledged, "acked")]);
      FillOutcome(w1, cfg, intent, id, intent.limitPrice, now, roll);
      FillKeepsTerms(w1, cfg, intent, id, intent.limitPrice, now, roll);
    }
  }

  lemma FillKeepsTerms(w: World, cfg: Config, intent: Intent, id: string, price: real, now: int, roll: real)
    requires WorldSound(w) && id in w.orders && !IsTerminal(w.orders[id].status)
    ensures var o, w' := w.orders[id], FillAttempted(w, cfg, intent, id, price, now, roll).world;
      && id in w'.orders && w'.orders[id].limitPrice == o.limitPrice && w'.orders[id].requested == o.requested
      && w'.orders[id].accountId == o.accountId && w'.orders[id].intentId == o.intentId && w'.orders[id].orderId == id
  {
    hide Applied, OrderSound, Conserved;
    FillCases(w, cfg, intent, id, price, now, roll);
  }

  /** A resting order can be canceled: it keeps its fills, and no cash moves. Others stay as they are. */
  lemma CancelOutcome(w: World, id: string, now: int)
    requires WorldSound(w) && id in w.orders && w.orders[id].status != Created
    ensures var o, r := w.orders[id], CancelRequested(w, id, now);
      && r.error == None && r.world.book == w.book && id in r.world.orders
      && var o' := r.world.orders[id];
        && (IsTerminal(o.status) ==> o' == o)
        && (!IsTerminal(o.status) ==> o'.status == Canceled && o'.fills == o.fills && o'.filled == o.filled)
  {
    hide Conserved, OrderSound;
    if !IsTerminal(w.orders[id].status) { RestingStatus(w, id); }
  }

  // ----- Accounts -----

  /** An account can be used exactly if its name is one of six or starts as a challenger's, and it is open already or
      the starting cash is not negative; opened, it holds just the starting cash. */
  lemma AccountOpensExactly(b: Book, id: string)
    ensures var r := Ensured(b, id);
      && (r.error.None? <==>
            && (id in {"system_a_legacy", "system_b_legacy", "system_b_v2", "system_b_v3", "system_b_ensemble",
                       "system_b_grok"}
                || "system_b_challenger_" <= id)
            && (id in b.accounts || 0.0 <= b.startingCash))
      && (r.error.None? ==> id in r.book.accounts)
      && (r.error.None? && id !in b.accounts ==>
            var acct := r.book.accounts[id];
            && acct.accountId == id && acct.cash == acct.equity == acct.startingCash == b.startingCash
            && !acct.blocked && acct.openPositions == [] && acct.tradeCount == 0 && acct.dailyPnl == 0.0)
      && (forall other :: other != id || id in b.accounts ==>
            (other in r.book.accounts <==> other in b.accounts)
            && (other in b.accounts ==> r.book.accounts[other] == b.accounts[other]))
  {
  }

  /** A profit or loss is booked exactly if the account can be used and it leaves no negative balance. */
  lemma RealizedExactly(b: Book, id: string, pnl: real, event: Event, closing: Option<string>)
    ensures var r := Realized(b, id, pnl, event, closing);
      && (r.error.None? <==>
          CanOpen(b, id) && 0.0 <= (if id in b.accounts then b.accounts[id].cash else b.startingCash) + pnl)
      && r.book.ledger == b.ledger + (if r.error.None? then [PnlEntry(id, pnl)] else [])
      && (r.error.None? ==>
            r.book.accounts[id].events == (if id in b.accounts then b.accounts[id].events else []) + [event])
  {
    hide Without;
  }

  // ----- Positions -----

  ghost predicate Distinct(ids: seq<string>) { forall i, j :: 0 <= i < j < |ids| ==> ids[i] != ids[j] }

  /** Closing takes out every mention of the position, and only those. */
  lemma {:induction false} WithoutExactly(ids: seq<string>, id: string, p: string)
    ensures p in Without(ids, id) <==> p in ids && p != id
    ensures multiset(Without(ids, id))[p] == if p == id then 0 else multiset(ids)[p]
  {
    if ids != [] {
      var front, last := ids[..|ids| - 1], ids[|ids| - 1];
      assert ids == front + [last];
      WithoutExactly(front, id, p);
    }
  }

  lemma {:induction false} WithoutDistinct(ids: seq<string>, id: string)
    requires Distinct(ids)
    ensures Distinct(Without(ids, id))
  {
    if ids != [] {
      var front, last := ids[..|ids| - 1], ids[|ids| - 1];
      WithoutDistinct(front, id);
      WithoutExactly(front, id, last);
      assert last !in front;
    }
  }

  ghost predicate PositionsDistinct(b: Book) { forall id :: id in b.accounts ==>
                                              Distinct(b.accounts[id].openPositions) }

  /** The positions of an account after a step that did not raise: one more after registering, without the one closed,
      and otherwise the same; a new account has none. */
  ghost predicate PositionsFollow(w: World, step: Step, w': World, id: string) {
    id in w'.book.accounts ==>
      var before := if id in w.book.accounts then IdSet(w.book.accounts[id].openPositions) else {};
      IdSet(w'.book.accounts[id].openPositions) ==
        if step.RegisterStep? && step.accountId == id then before + {step.position}
        else if step.CloseStep? && step.accountId == id then before - {step.position}
        else before
  }

  ghost predicate KeepsPositions(b: Book, b': Book) {
    forall id :: id in b'.accounts ==>
      b'.accounts[id].openPositions == if id in b.accounts then b.accounts[id].openPositions else []
  }

  lemma AppliedKeepsPositions(b: Book, fill: Fill, debit: bool)
    ensures KeepsPositions(b, Applied(b, fill, debit).book)
  {
    hide Cost;
  }

  lemma FillKeepsPositions(w: World, cfg: Config, intent: Intent, id: string, price: real, now: int, roll: real)
    requires id in w.orders && w.orders[id].filled >= 0
    ensures KeepsPositions(w.book, FillAttempted(w, cfg, intent, id, price, now, roll).world.book)
  {
    hide Applied, WithFill, Successors;
    var o := w.orders[id];
    if WillFill(o, cfg, intent, price, roll) && IsIsolated(o.accountId) {
      AppliedKeepsPositions(w.book, NewFill(o, cfg, intent, price, now, roll), IsBuy(intent.side));
    }
  }

  lemma SubmitKeepsPositions(w: World, cfg: Config, intent: Intent, contentHash: string, now: int, roll: real)
    ensures KeepsPositions(w.book, Submitted(w, cfg, intent, contentHash, now, roll).world.book)
  {
    hide FillAttempted;
    var id := OrderIdOf(intent, contentHash);
    var o, r := NewOrder(intent, id, now), Ensured(w.book, intent.accountId);
    if r.error.None? {
      var w1 := World(r.book, w.orders[id := o.(status := Acknowledged, reason := "acked")]);
      FillKeepsPositions(w1, cfg, intent, id, intent.limitPrice, now, roll);
    }
  }

  lemma ReconcilingKeepsPositions(b: Book, id: string, orders: seq<OrderState>, positions: seq<Position>,
                                  expected: Option<Account>)
    ensures KeepsPositions(b, ReconciledBook(b, id, orders, positions, expected).book)
  {
    hide Reconciled;
  }

  lemma OrdersKeepPositions(w: World, cfg: Config, step: Step)
    requires OrdersAdmissible(w) && !step.RegisterStep? && !step.CloseStep?
    ensures KeepsPositions(w.book, Next(w, cfg, step).world.book)
  {
    hide FillAttempted, Submitted, ReconciledBook, Transitioned;
    match step
    case SubmitStep(intent, contentHash, now, roll) =>
      SubmitKeepsPositions(w, cfg, intent, contentHash, now, roll);
    case QuoteStep(id, price, now, intent, roll) =>
      if id in w.orders {
        var used := if intent.Some? then intent.value else RebuiltIntent(w.orders[id]);
        FillKeepsPositions(w, cfg, used, id, price, now, roll);
        BookStays(w, id, Expired, now, "timeout");
      }
    case ReconcileStep(id, orders, positions, expected) =>
      ReconcilingKeepsPositions(w.book, id, orders, positions, expected);
    case _ =>
  }

  lemma BookStays(w: World, id: string, nxt: Status, now: int, reason: string)
    requires id in w.orders
    ensures Transitioned(w, id, nxt, now, reason).world.book == w.book
  {
  }

  lemma ClosingMoves(b: Book, id: string, position: string, pnl: real, event: Event)
    requires Realized(b, id, pnl, event, Some(position)).error.None?
    ensures var before := if id in b.accounts then IdSet(b.accounts[id].openPositions) else {};
      IdSet(Realized(b, id, pnl, event, Some(position)).book.accounts[id].openPositions) == before - {position}
  {
    hide Without;
    var before := Ensured(b, id).book.accounts[id].openPositions;
    forall p ensures p in Without(before, position) <==> p in before && p != position {
      WithoutExactly(before, position, p);
    }
  }

  lemma RegisteringMoves(b: Book, id: string, position: string)
    requires Registered(b, id, position).error.None?
    ensures var before := if id in b.accounts then IdSet(b.accounts[id].openPositions) else {};
      IdSet(Registered(b, id, position).book.accounts[id].openPositions) == before + {position}
  {
  }

  /** Each step changes the open positions of one account at most, by the one position it names. */
  lemma StepMovesOnePosition(w: World, cfg: Config, step: Step, id: string)
    requires OrdersAdmissible(w) && Next(w, cfg, step).error.None?
    ensures PositionsFollow(w, step, Next(w, cfg, step).world, id)
  {
    hide Submitted, Quoted, CancelRequested, ReconciledBook, Without, IdSet;
    NoIds();
    match step
    case CloseStep(account, position, pnl) => ClosingMoves(w.book, account, position, pnl, CloseEvent(position));
    case RegisterStep(account, position) => RegisteringMoves(w.book, account, position);
    case _ => OrdersKeepPositions(w, cfg, step);
  }

  lemma NoIds()
    ensures IdSet([]) == {}
  {
  }

  /** No account ever lists a position twice, over every run from the empty world. */
  lemma {:induction false} RunPositionsDistinct(cfg: Config, startingCash: real, steps: seq<Step>, worlds: seq<World>,
                                                n: nat)
    requires IsChain(cfg, steps, worlds) && worlds[0] == EmptyWorld(startingCash) && n <= |steps|
    ensures PositionsDistinct(worlds[n].book)
  {
    if n > 0 {
      RunPositionsDistinct(cfg, startingCash, steps, worlds, n - 1);
      assert Follows(cfg, worlds[n - 1], steps[n - 1], worlds[n]);
      StepKeepsDistinct(worlds[n - 1], cfg, steps[n - 1]);
    }
  }

  lemma StepKeepsDistinct(w: World, cfg: Config, step: Step)
    requires OrdersAdmissible(w) && PositionsDistinct(w.book)
    ensures PositionsDistinct(Next(w, cfg, step).world.book)
  {
    hide Submitted, Quoted, CancelRequested, ReconciledBook, Without;
    if step.CloseStep? {
      if step.accountId in w.book.accounts {
        WithoutDistinct(w.book.accounts[step.accountId].openPositions, step.position);
      }
      WithoutDistinct([], step.position);
    } else if !step.RegisterStep? {
      OrdersKeepPositions(w, cfg, step);
    }
  }
}
