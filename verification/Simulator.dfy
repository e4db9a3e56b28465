/** The limit-order paper fill simulator and account reconciliation
    (src/spy_der/execution/simulator.py, src/spy_der/execution/reconciliation.py). */
module Simulator {
  import opened Options
  import opened Orders
  import opened Accounts

  datatype Config = Config(defaultFillProbability: real, allowPartials: bool, feePerContract: real,
                           rejectIfBlocked: bool)

  datatype World = World(book: Book, orders: map<string, OrderState>)

  datatype Result = Result(world: World, error: Option<Error>)

  // ----- What each operation does to the world -----

  function Transitioned(w: World, id: string, nxt: Status, now: int, reason: string): Result
    requires id in w.orders
  {
    var o := w.orders[id];
    if o.status == nxt then Result(w, None)
    else if nxt !in Successors(o.status) then Result(w, Some(InvalidTransition))
    else Result(w.(orders := w.orders[id := o.(status := nxt, reason := reason, updatedAt := now)]), None)
  }

  function Probability(cfg: Config, intent: Intent): real {
    if intent.fillProbability < 0.0 then cfg.defaultFillProbability else intent.fillProbability
  }

  predicate Marketable(intent: Intent, price: real) {
    if IsBuy(intent.side) then price <= intent.limitPrice else price >= intent.limitPrice
  }

  function FillQuantity(cfg: Config, remaining: int, p: real, roll: real): (q: int)
    requires remaining > 0
    ensures 0 < q <= remaining
  {
    if cfg.allowPartials && remaining > 1 && roll > p * 0.5 then (if remaining / 2 > 1 then remaining / 2 else 1)
    else remaining
  }

  function FeePerContract(cfg: Config, intent: Intent): real {
    if intent.feePerContract != 0.0 then intent.feePerContract else cfg.feePerContract
  }

  predicate WillFill(o: OrderState, cfg: Config, intent: Intent, price: real, roll: real) {
    o.requested > o.filled && Marketable(intent, price) && roll <= Probability(cfg, intent)
  }

  function NewFill(o: OrderState, cfg: Config, intent: Intent, price: real, now: int, roll: real): Fill
    requires o.requested > o.filled && IsIsolated(o.accountId)
  {
    var qty := FillQuantity(cfg, o.requested - o.filled, Probability(cfg, intent), roll);
    FillData(o.orderId, o.accountId, qty, price, FeePerContract(cfg, intent) * qty as real, now)
  }

  function StatusAfter(o: OrderState, fill: Fill): Status {
    if o.filled + fill.quantity >= o.requested then Filled else PartiallyFilled
  }

  function WithFill(o: OrderState, fill: Fill, now: int): OrderState
    requires o.filled + fill.quantity != 0
  {
    var fills, filled, nxt := o.fills + [fill], o.filled + fill.quantity, StatusAfter(o, fill);
    o.(status := nxt, filled := filled,
       avgFillPrice := Some(Quantize(TotalNotional(fills) / filled as real)),
       fees := o.fees + fill.fees, fills := fills,
       reason := if nxt == Filled then "filled" else "partial_fill",
       updatedAt := now)
  }

  /** Cash moves before the status transition is checked, exactly as in the source. */
  function FillAttempted(w: World, cfg: Config, intent: Intent, id: string, price: real, now: int, roll: real): Result
    requires id in w.orders && w.orders[id].filled >= 0
  {
    var o := w.orders[id];
    if !WillFill(o, cfg, intent, price, roll) then Result(w, None)
    else if !IsIsolated(o.accountId) then Result(w, Some(UnknownAccount))
    else
      var fill := NewFill(o, cfg, intent, price, now, roll);
      var r := Applied(w.book, fill, IsBuy(intent.side));
      if r.error.Some? then Result(w.(book := r.book), r.error)
      else if StatusAfter(o, fill) !in Successors(o.status) then Result(w.(book := r.book), Some(InvalidTransition))
      else Result(World(r.book, w.orders[o.orderId := WithFill(o, fill, now)]), None)
  }

  function OrderIdOf(intent: Intent, contentHash: string): string {
    if intent.intentId != "" then intent.intentId else contentHash
  }

  function NewOrder(intent: Intent, id: string, now: int): OrderState {
    OrderState(id, if intent.intentId != "" then intent.intentId else id, intent.accountId, intent.candidateId,
               Created, intent.contracts, 0, None, 0.0, [], "",
               if intent.createdAt.Some? then intent.createdAt.value else now, now, intent.limitPrice)
  }

  predicate ExpiredAt(intent: Intent, now: int) { intent.expiresAt.Some? && now >= intent.expiresAt.value }

  lemma SubmissionSteps()
    ensures Rejected in Successors(Created) && Validated in Successors(Created)
    ensures Expired in Successors(Validated) && SubmittedSimulated in Successors(Validated)
    ensures Acknowledged in Successors(SubmittedSimulated)
  {
  }

  /** The order is recorded first, so a submission that raises leaves it behind in CREATED. */
  function Submitted(w: World, cfg: Config, intent: Intent, contentHash: string, now: int, roll: real): Result {
    var id := OrderIdOf(intent, contentHash);
    var o := NewOrder(intent, id, now);
    var r := Ensured(w.book, intent.accountId);
    if r.error.Some? then Result(World(r.book, w.orders[id := o]), r.error)
    else Admitted(r.book, w.orders, o, cfg, intent, now, roll)
  }

  /** A recorded order whose account exists: rejected, expired, or acknowledged and tried at its limit. */
  function Admitted(book: Book, before: map<string, OrderState>, o: OrderState, cfg: Config, intent: Intent,
                    now: int, roll: real): Result
    requires intent.accountId in book.accounts && o.filled == 0
  {
    var id := o.orderId;
    if cfg.rejectIfBlocked && book.accounts[intent.accountId].blocked then
      var reason := "account_blocked:" + book.accounts[intent.accountId].blockReason;
      Result(World(book, before[id := o.(status := Rejected, reason := reason)]), None)
    else if ExpiredAt(intent, now) then
      Result(World(book, before[id := o.(status := Expired, reason := "expired_at_submit")]), None)
    else
      FillAttempted(World(book, before[id := o.(status := Acknowledged, reason := "acked")]),
                    cfg, intent, id, intent.limitPrice, now, roll)
  }

  /** The intent a quote without one falls back to: always a buy. */
  function RebuiltIntent(o: OrderState): Intent
    requires o.accountId == "" || IsIsolated(o.accountId)
  {
    var rest := o.requested - o.filled;
    IntentData(o.intentId, o.accountId, o.candidateId, "buy_to_open", if rest > 1 then rest else 1, o.limitPrice,
               Some(o.createdAt), None, 1.0, 0.65)
  }

  ghost predicate OrdersAdmissible(w: World) {
    forall id :: id in w.orders ==>
      var o := w.orders[id];
      o.orderId == id && o.filled >= 0 && (o.accountId == "" || IsIsolated(o.accountId))
  }

  function Quoted(w: World, cfg: Config, id: string, price: real, now: int, intent: Option<Intent>, roll: real): Result
    requires OrdersAdmissible(w)
  {
    if id !in w.orders then Result(w, Some(UnknownOrder))
    else if IsTerminal(w.orders[id].status) then Result(w, None)
    else
      var used := if intent.Some? then intent.value else RebuiltIntent(w.orders[id]);
      if ExpiredAt(used, now) then Transitioned(w, id, Expired, now, "timeout")
      else FillAttempted(w, cfg, used, id, price, now, roll)
  }

  function CancelRequested(w: World, id: string, now: int): Result {
    if id !in w.orders then Result(w, Some(UnknownOrder))
    else
      var o := w.orders[id];
      if IsTerminal(o.status) then Result(w, None)
      else if o.status != CancelPending && CancelPending !in Successors(o.status)
        then Result(w, Some(InvalidTransition))
      else Result(w.(orders := w.orders[id := o.(status := Canceled, reason := "canceled", updatedAt := now)]), None)
  }

  // ----- The simulator -----

  class PaperExecutionSimulator {
    const accounts: IsolatedAccountBook
    const config: Config
    var orders: map<string, OrderState>

    ghost function View(): World
      reads this, accounts
    {
      World(accounts.View(), orders)
    }

    constructor (accounts: IsolatedAccountBook, config: Config)
      ensures this.accounts == accounts && this.config == config
      ensures View() == World(accounts.View(), map[])
    {
      this.accounts := accounts;
      this.config := config;
      orders := map[];
    }

    method Submit(intent: Intent, contentHash: string, now: int, roll: real) returns (error: Option<Error>)
      modifies this, accounts
      ensures Result(View(), error) == Submitted(old(View()), config, intent, contentHash, now, roll)
    {
      hide Admitted, Ensured, Successors;
      var orderId := if intent.intentId != "" then intent.intentId else contentHash;
      var state := NewOrder(intent, orderId, now);
      orders := orders[orderId := state];
      error := accounts.Ensure(intent.accountId);
      if error.Some? {
        return;
      }
      error := Admit(intent, state, old(orders), now, roll);
    }

    method Admit(intent: Intent, state: OrderState, ghost before: map<string, OrderState>, now: int, roll: real)
      returns (error: Option<Error>)
      requires intent.accountId in accounts.accounts && orders == before[state.orderId := state]
      requires state.status == Created && state.filled == 0 && state.updatedAt == now
      modifies this, accounts
      ensures Result(View(), error) == Admitted(old(accounts.View()), before, state, config, intent, now, roll)
    {
      hide FillAttempted, Successors;
      SubmissionSteps();
      var orderId := state.orderId;
      var acct := accounts.accounts[intent.accountId];
      if config.rejectIfBlocked && acct.blocked {
        Advance(orderId, Rejected, now, "account_blocked:" + acct.blockReason);
        return None;
      }
      Advance(orderId, Validated, now, "validated");
      if intent.expiresAt.Some? && now >= intent.expiresAt.value {
        Advance(orderId, Expired, now, "expired_at_submit");
        return None;
      }
      Acknowledge(orderId, now);
      assert orders == before[orderId := state.(status := Acknowledged, reason := "acked")];
      error := MaybeFill(intent, orderId, intent.limitPrice, now, roll);
    }

    /** A transition the table allows, so it cannot raise. */
    method Advance(orderId: string, nxt: Status, now: int, reason: string)
      requires orderId in orders && nxt in Successors(orders[orderId].status) && nxt != orders[orderId].status
      modifies `orders
      ensures orders == old(orders)[orderId := old(orders[orderId]).(status := nxt, reason := reason, updatedAt := now)]
    {
      var error := Transition(orderId, nxt, now, reason);
    }

    method Acknowledge(orderId: string, now: int)
      requires orderId in orders && orders[orderId].status == Validated
      modifies `orders
      ensures orders
        == old(orders)[orderId := old(orders[orderId]).(status := Acknowledged, reason := "acked", updatedAt := now)]
    {
      Advance(orderId, SubmittedSimulated, now, "submitted_simulated");
      Advance(orderId, Acknowledged, now, "acked");
    }

    method OnQuote(orderId: string, price: real, now: int, intent: Option<Intent>, roll: real)
      returns (error: Option<Error>)
      requires OrdersAdmissible(View())
      modifies this, accounts
      ensures Result(View(), error) == Quoted(old(View()), config, orderId, price, now, intent, roll)
    {
      if orderId !in orders {
        return Some(UnknownOrder);
      }
      var state := orders[orderId];
      if IsTerminal(state.status) {
        return None;
      }
      var used := if intent.Some? then intent.value else RebuiltIntent(state);
      if used.expiresAt.Some? && now >= used.expiresAt.value {
        error := Transition(orderId, Expired, now, "timeout");
        return;
      }
      error := MaybeFill(used, orderId, price, now, roll);
    }

    method Cancel(orderId: string, now: int) returns (error: Option<Error>)
      modifies this
      ensures Result(View(), error) == CancelRequested(old(View()), orderId, now)
    {
      if orderId !in orders {
        return Some(UnknownOrder);
      }
      if IsTerminal(orders[orderId].status) {
        return None;
      }
      error := Transition(orderId, CancelPending, now, "cancel_requested");
      if error.Some? {
        return;
      }
      error := Transition(orderId, Canceled, now, "canceled");
    }

    method MaybeFill(intent: Intent, orderId: string, price: real, now: int, roll: real) returns (error: Option<Error>)
      requires orderId in orders && orders[orderId].orderId == orderId && orders[orderId].filled >= 0
      modifies this, accounts
      ensures Result(View(), error) == FillAttempted(old(View()), config, intent, orderId, price, now, roll)
    {
      var state := orders[orderId];
      var remaining := state.requested - state.filled;
      if remaining <= 0 {
        return None;
      }
      var canFill := if IsBuy(intent.side) then price <= intent.limitPrice else price >= intent.limitPrice;
      if !canFill {
        return None;
      }
      var p := if intent.fillProbability < 0.0 then config.defaultFillProbability else intent.fillProbability;
      if roll > p {
        return None;
      }
      var qty := remaining;
      if config.allowPartials && remaining > 1 && roll > p * 0.5 {
        qty := if remaining / 2 > 1 then remaining / 2 else 1;
      }
      var fee := (if intent.feePerContract != 0.0 then intent.feePerContract else config.feePerContract) * qty as real;
      if !IsIsolated(state.accountId) {
        return Some(UnknownAccount);
      }
      var fill: Fill := FillData(orderId, state.accountId, qty, price, fee, now);
      assert fill == NewFill(state, config, intent, price, now, roll);
      error := accounts.ApplyFill(fill, IsBuy(intent.side));
      if error.Some? {
        return;
      }
      var filled := state.filled + qty;
      var nxt := if filled >= state.requested then Filled else PartiallyFilled;
      if nxt !in Successors(state.status) {
        return Some(InvalidTransition);
      }
      orders := orders[orderId := WithFill(state, fill, now)];
    }

    method Transition(orderId: string, nxt: Status, now: int, reason: string) returns (error: Option<Error>)
      requires orderId in orders
      modifies `orders
      ensures Result(View(), error) == Transitioned(old(View()), orderId, nxt, now, reason)
    {
      var state := orders[orderId];
      if state.status == nxt {
        return None;
      }
      if nxt !in Successors(state.status) {
        return Some(InvalidTransition);
      }
      orders := orders[orderId := state.(status := nxt, reason := reason, updatedAt := now)];
      return None;
    }
  }

  // ----- Reconciliation -----

  datatype Position = Position(positionId: string, openContracts: int)

  datatype Discrepancy =
    | CrossAccountOrder(orderId: string)
    | MissingOpenPosition(positionId: string)
    | OrphanOpenPosition(positionId: string)
    | ExpectedAccountMismatch
    | CashMismatch(held: real, wanted: real)
    | OpenPositionSetMismatch

  function IdSet(ids: seq<string>): set<string> { set p | p in ids }

  function OpenIds(positions: seq<Position>): set<string> {
    set p | p in positions && p.openContracts > 0 :: p.positionId
  }

  /** Nothing to report: own orders only, the same open positions, and the expected ledger if one is given. */
  ghost predicate Reconciled(acct: Account, id: string, orders: seq<OrderState>, positions: seq<Position>,
                             expected: Option<Account>) {
    && (forall o :: o in orders ==> o.accountId == id)
    && OpenIds(positions) == IdSet(acct.openPositions)
    && (expected.Some? ==>
          expected.value.accountId == id && expected.value.cash == acct.cash
          && IdSet(expected.value.openPositions) == IdSet(acct.openPositions))
  }

  /** What each discrepancy reports. */
  ghost predicate Warranted(d: Discrepancy, acct: Account, id: string, orders: seq<OrderState>,
                            positions: seq<Position>,
                            expected: Option<Account>) {
    match d
    case CrossAccountOrder(orderId) => exists o :: o in orders && o.orderId == orderId && o.accountId != id
    case MissingOpenPosition(pid) => pid in OpenIds(positions) && pid !in acct.openPositions
    case OrphanOpenPosition(pid) => pid in acct.openPositions && pid !in OpenIds(positions)
    case ExpectedAccountMismatch => expected.Some? && expected.value.accountId != id
    case CashMismatch(held, wanted) =>
        expected.Some? && held == acct.cash && wanted == expected.value.cash && held != wanted
    case OpenPositionSetMismatch => expected.Some? && IdSet(expected.value.openPositions) != IdSet(acct.openPositions)
  }

  method Discrepancies(acct: Account, id: string, orders: seq<OrderState>, positions: seq<Position>,
                       expected: Option<Account>)
    returns (found: set<Discrepancy>)
    ensures forall d :: d in found <==> Warranted(d, acct, id, orders, positions, expected)
  {
    found := {};
    for i := 0 to |orders|
      invariant forall d :: d in found <==>
        d.CrossAccountOrder? && Warranted(d, acct, id, orders[..i], positions, expected)
    {
      assert orders[..i + 1] == orders[..i] + [orders[i]];
      ghost var before := found;
      if orders[i].accountId != id {
        found := found + {CrossAccountOrder(orders[i].orderId)};
      }
      forall d: Discrepancy | d.CrossAccountOrder?
        ensures d in found <==> Warranted(d, acct, id, orders[..i + 1], positions, expected)
      {
        assert d in before <==> Warranted(d, acct, id, orders[..i], positions, expected);
        OneMoreOrder(orders[..i], orders[i], d.orderId, id);
      }
    }
    assert orders[..|orders|] == orders;
    var openIds := OpenIds(positions);
    found := found + (set pid | pid in openIds && pid !in acct.openPositions :: MissingOpenPosition(pid));
    found := found + (set pid | pid in acct.openPositions && pid !in openIds :: OrphanOpenPosition(pid));
    if expected.Some? {
      if expected.value.accountId != id {
        found := found + {ExpectedAccountMismatch};
      }
      if expected.value.cash != acct.cash {
        found := found + {CashMismatch(acct.cash, expected.value.cash)};
      }
      if IdSet(expected.value.openPositions) != IdSet(acct.openPositions) {
        found := found + {OpenPositionSetMismatch};
      }
    }
  }

  lemma OneMoreOrder(orders: seq<OrderState>, next: OrderState, orderId: string, id: string)
    ensures (exists o :: o in orders + [next] && o.orderId == orderId && o.accountId != id) <==>
      (exists o :: o in orders && o.orderId == orderId && o.accountId != id)
          || (next.orderId == orderId && next.accountId != id)
  {
    assert next in orders + [next] && forall o :: o in orders + [next] <==> o in orders || o == next;
  }

  /** Nothing is reported exactly when the account reconciles. */
  lemma ReconciledExactly(acct: Account, id: string, orders: seq<OrderState>, positions: seq<Position>,
                          expected: Option<Account>)
    ensures (forall d :: !Warranted(d, acct, id, orders, positions, expected)) <==>
      Reconciled(acct, id, orders, positions, expected)
  {
    if forall d :: !Warranted(d, acct, id, orders, positions, expected) {
      forall o | o in orders ensures o.accountId == id {
        assert !Warranted(CrossAccountOrder(o.orderId), acct, id, orders, positions, expected);
      }
      forall pid ensures pid in OpenIds(positions) <==> pid in IdSet(acct.openPositions) {
        assert !Warranted(MissingOpenPosition(pid), acct, id, orders, positions, expected);
        assert !Warranted(OrphanOpenPosition(pid), acct, id, orders, positions, expected);
      }
      if expected.Some? {
        assert !Warranted(ExpectedAccountMismatch, acct, id, orders, positions, expected);
        assert !Warranted(CashMismatch(acct.cash, expected.value.cash), acct, id, orders, positions, expected);
        assert !Warranted(OpenPositionSetMismatch, acct, id, orders, positions, expected);
      }
    }
  }

  /** Reconciling opens the account if need be, and blocks it unless everything agrees. */
  ghost function ReconciledBook(b: Book, id: string, orders: seq<OrderState>, positions: seq<Position>,
                                expected: Option<Account>): BookResult {
    var r := Ensured(b, id);
    if r.error.Some? || Reconciled(r.book.accounts[id], id, orders, positions, expected) then r
    else Blocking(b, id, "reconciliation_mismatch")
  }

  /** On any mismatch the account is blocked; otherwise the book is only opened, never changed. */
  method ReconcileAccount(id: string, book: IsolatedAccountBook, orders: seq<OrderState>, positions: seq<Position>,
                          expected: Option<Account>)
    returns (error: Option<Error>, matched: bool, found: set<Discrepancy>)
    modifies book
    ensures error == Ensured(old(book.View()), id).error
    ensures book.View() == ReconciledBook(old(book.View()), id, orders, positions, expected).book
    ensures error.Some? ==> !matched && found == {}
    ensures error.None? ==>
      var acct := Ensured(old(book.View()), id).book.accounts[id];
      && (forall d :: d in found <==> Warranted(d, acct, id, orders, positions, expected))
      && (matched <==> found == {}) && (matched <==> Reconciled(acct, id, orders, positions, expected))
  {
    matched, found := false, {};
    error := book.Ensure(id);
    if error.Some? {
      return;
    }
    ghost var acct := book.accounts[id];
    found := Discrepancies(book.accounts[id], id, orders, positions, expected);
    ReconciledExactly(acct, id, orders, positions, expected);
    matched := found == {};
    assert matched ==> forall d :: d !in found;
    if !matched {
      var blocked := book.Block(id, "reconciliation_mismatch");
    }
  }
}
