/** What holds over every run of the paper execution engine
    (src/spy_der/execution/simulator.py, accounts.py, reconciliation.py). */
module ExecutionRuns {
  import opened Options
  import opened Orders
  import opened Accounts
  import opened Simulator

  datatype Step =
    | SubmitStep(intent: Intent, contentHash: string, now: int, roll: real)
    | QuoteStep(orderId: string, price: real, now: int, quoteIntent: Option<Intent>, roll: real)
    | CancelStep(orderId: string, now: int)
    | RealizeStep(accountId: string, pnl: real, note: string)
    | CloseStep(accountId: string, position: string, pnl: real)
    | RegisterStep(accountId: string, position: string)
    | ReconcileStep(accountId: string, orders: seq<OrderState>, positions: seq<Position>, expected: Option<Account>)

  function OnBook(w: World, r: BookResult): Result { Result(w.(book := r.book), r.error) }

  ghost function Next(w: World, cfg: Config, step: Step): Result
    requires OrdersAdmissible(w)
  {
    match step
    case SubmitStep(intent, contentHash, now, roll) => Submitted(w, cfg, intent, contentHash, now, roll)
    case QuoteStep(id, price, now, intent, roll) => Quoted(w, cfg, id, price, now, intent, roll)
    case CancelStep(id, now) => CancelRequested(w, id, now)
    case RealizeStep(id, pnl, note) => OnBook(w, Realized(w.book, id, pnl, RealizeEvent(note), None))
    case CloseStep(id, position, pnl) => OnBook(w, Realized(w.book, id, pnl, CloseEvent(position), Some(position)))
    case RegisterStep(id, position) => OnBook(w, Registered(w.book, id, position))
    case ReconcileStep(id, orders, positions, expected) =>
      OnBook(w, ReconciledBook(w.book, id, orders, positions, expected))
  }

  /** A submission overwrites an order of the same id, so runs use fresh ids. */
  predicate Fresh(w: World, step: Step) {
    step.SubmitStep? ==> OrderIdOf(step.intent, step.contentHash) !in w.orders
  }

  // ----- The invariant -----

  function FillsOf(ledger: seq<Entry>, id: string): seq<Fill> {
    if ledger == [] then []
    else
      var last := ledger[|ledger| - 1];
      FillsOf(ledger[..|ledger| - 1], id) + if last.FillEntry? && last.fill.orderId == id then [last.fill] else []
  }

  ghost predicate OrderSound(o: OrderState) {
    && o.requested > 0
    && 0 <= o.filled <= o.requested
    && o.filled == TotalQuantity(o.fills)
    && o.fees == TotalFees(o.fills)
    && o.status in {Created, Acknowledged, PartiallyFilled, Filled, Canceled, Rejected, Expired}
    && (o.status == Filled <==> o.filled == o.requested)
    && (o.status in {Created, Acknowledged, Rejected} ==> o.fills == [])
    && (o.status == PartiallyFilled ==> o.fills != [])
    && (o.fills == [] ==> o.avgFillPrice == None)
    && (o.fills != [] ==> o.filled > 0 && o.avgFillPrice == Some(Quantize(TotalNotional(o.fills) / o.filled as real)))
    && (forall f :: f in o.fills ==> f.orderId == o.orderId && f.accountId == o.accountId)
    && (o.accountId == "" || IsIsolated(o.accountId))
  }

  /** An order rests in CREATED only if its account can never be opened; otherwise the account exists.
      This is what makes the unvalidated cash movement harmless. */
  ghost predicate OrderBacked(b: Book, o: OrderState) {
    if o.status == Created then !CanOpen(b, o.accountId) else o.accountId in b.accounts
  }

  ghost predicate WorldSound(w: World) {
    && Conserved(w.book)
    && (w.book.startingCash < 0.0 ==> w.book.accounts == map[])
    && OrdersAdmissible(w)
    && (forall id :: id in w.orders ==>
          && OrderSound(w.orders[id])
          && OrderBacked(w.book, w.orders[id])
          && FillsOf(w.book.ledger, id) == w.orders[id].fills)
    && (forall e :: e in w.book.ledger && e.FillEntry? ==> e.fill.orderId in w.orders)
  }

  /** Everything a change of book may do: accounts other than id are untouched, blocks stay, and
      cash moves exactly by the one entry appended, never for a fill on a blocked account. */
  ghost predicate BookStep(b: Book, b': Book, id: string, e: Option<Entry>) {
    && Conserved(b')
    && b'.startingCash == b.startingCash
    && b.accounts.Keys <= b'.accounts.Keys
    && (b'.startingCash < 0.0 ==> b'.accounts == b.accounts)
    && (forall a :: a in b.accounts && a != id ==> b'.accounts[a] == b.accounts[a])
    && (id in b.accounts ==> b'.accounts[id].cash == b.accounts[id].cash + if e.Some? then Change(e.value) else 0.0)
    && (id in b.accounts && b.accounts[id].blocked ==> b'.accounts[id].blocked && (e.Some? ==> e.value.PnlEntry?))
    && b'.ledger == b.ledger + (if e.Some? then [e.value] else [])
    && (e.Some? ==> EntryAccount(e.value) == id && id in b'.accounts)
  }

  lemma EnsuredStep(b: Book, id: string)
    requires Conserved(b) && (b.startingCash < 0.0 ==> b.accounts == map[])
    ensures BookStep(b, Ensured(b, id).book, id, None)
  {
    hide Conserved;
    EnsuredKeeps(b, id);
  }

  lemma AppliedStep(b: Book, fill: Fill, debit: bool)
    requires Conserved(b) && (b.startingCash < 0.0 ==> b.accounts == map[])
    ensures var r := Applied(b, fill, debit);
      BookStep(b, r.book, fill.accountId, if r.error.None? then Some(FillEntry(fill, debit)) else None)
  {
    hide Conserved, Cost;
    EnsuredStep(b, fill.accountId);
    AppliedKeeps(b, fill, debit);
  }

  lemma RealizedStep(b: Book, id: string, pnl: real, event: Event, closing: Option<string>)
    requires Conserved(b) && (b.startingCash < 0.0 ==> b.accounts == map[])
    ensures var r := Realized(b, id, pnl, event, closing);
      BookStep(b, r.book, id, if r.error.None? then Some(PnlEntry(id, pnl)) else None)
  {
    hide Conserved, Without;
    EnsuredStep(b, id);
    RealizedKeeps(b, id, pnl, event, closing);
  }

  lemma BlockingStep(b: Book, id: string, reason: string)
    requires Conserved(b) && (b.startingCash < 0.0 ==> b.accounts == map[])
    ensures BookStep(b, Blocking(b, id, reason).book, id, None)
  {
    hide Conserved;
    EnsuredStep(b, id);
    BlockingKeeps(b, id, reason);
  }

  lemma RegisteredStep(b: Book, id: string, position: string)
    requires Conserved(b) && (b.startingCash < 0.0 ==> b.accounts == map[])
    ensures BookStep(b, Registered(b, id, position).book, id, None)
  {
    hide Conserved;
    EnsuredStep(b, id);
    RegisteredKeeps(b, id, position);
  }

  lemma FillsExtend(ledger: seq<Entry>, e: Entry, id: string)
    ensures FillsOf(ledger + [e], id)
      == FillsOf(ledger, id) + (if e.FillEntry? && e.fill.orderId == id then [e.fill] else [])
  {
    assert (ledger + [e])[..|ledger|] == ledger;
  }

  lemma {:induction false} NoFillsOf(ledger: seq<Entry>, id: string)
    requires forall e :: e in ledger && e.FillEntry? ==> e.fill.orderId != id
    ensures FillsOf(ledger, id) == []
  {
    if ledger != [] {
      NoFillsOf(ledger[..|ledger| - 1], id);
    }
  }

  /** Orders stay sound under any change of book that books no fill. */
  lemma OrdersFollowBook(w: World, b': Book, id: string, e: Option<Entry>)
    requires WorldSound(w) && BookStep(w.book, b', id, e) && (e.Some? ==> e.value.PnlEntry?)
    ensures WorldSound(w.(book := b'))
  {
    hide Conserved, OrderSound;
    forall o | o in w.orders ensures FillsOf(b'.ledger, o) == FillsOf(w.book.ledger, o) {
      if e.Some? { FillsExtend(w.book.ledger, e.value, o); }
      else { assert b'.ledger == w.book.ledger; }
    }
  }

  /** Replacing one order by a sound one with the same fills keeps the world sound. */
  lemma OrderReplaced(w: World, o: OrderState)
    requires WorldSound(w) && OrderSound(o) && OrderBacked(w.book, o)
    requires if o.orderId in w.orders then o.fills == w.orders[o.orderId].fills else o.fills == []
    ensures WorldSound(w.(orders := w.orders[o.orderId := o]))
  {
    hide Conserved, OrderBacked, OrderSound, FillsOf;
    SoundIsAdmissible(o);
    if o.orderId !in w.orders {
      NoFillsOf(w.book.ledger, o.orderId);
    }
  }

  lemma SoundIsAdmissible(o: OrderState)
    requires OrderSound(o)
    ensures o.filled >= 0 && (o.accountId == "" || IsIsolated(o.accountId))
  {
  }

  // ----- One step -----

  /** A fill keeps an order sound: in particular it never overfills it. */
  lemma WithFillSound(o: OrderState, fill: Fill, now: int)
    requires OrderSound(o) && o.status in {Acknowledged, PartiallyFilled}
    requires fill.orderId == o.orderId && fill.accountId == o.accountId && fill.quantity <= o.requested - o.filled
    ensures var o' := WithFill(o, fill, now);
      && OrderSound(o') && o'.fills == o.fills + [fill] && o'.status != Created && o'.filled >= 0
      && o'.orderId == o.orderId && o'.accountId == o.accountId
  {
    hide Quantize, TotalNotional, Successors, Notional;
    assert (o.fills + [fill])[..|o.fills|] == o.fills;
  }

  /** Exactly the order of the booked fill, if there is one, gains exactly that fill. */
  ghost predicate FillsAppended(w: World, w': World, e: Option<Entry>) {
    && w.orders.Keys <= w'.orders.Keys
    && (e.Some? && e.value.FillEntry? ==> e.value.fill.orderId in w'.orders)
    && forall id :: id in w'.orders ==>
         w'.orders[id].fills == (if id in w.orders then w.orders[id].fills else [])
           + (if e.Some? && e.value.FillEntry? && e.value.fill.orderId == id then [e.value.fill] else [])
  }

  /** Reachable resting orders that can be filled are in a status that admits the fill,
      so the cash a fill moves is never stranded by a refused transition. */
  lemma FillNeverStrands(w: World, cfg: Config, intent: Intent, id: string, price: real, now: int, roll: real)
    requires WorldSound(w) && id in w.orders && !IsTerminal(w.orders[id].status)
    ensures FillAttempted(w, cfg, intent, id, price, now, roll).error != Some(InvalidTransition)
    ensures FillAttempted(w, cfg, intent, id, price, now, roll).world.book.ledger != w.book.ledger ==>
      FillAttempted(w, cfg, intent, id, price, now, roll).error == None
          && w.orders[id].status in {Acknowledged, PartiallyFilled}
  {
    hide Conserved, Applied, Ensured;
    var o := w.orders[id];
    assert OrderSound(o) && OrderBacked(w.book, o);
    if WillFill(o, cfg, intent, price, roll) && IsIsolated(o.accountId) {
      AppliedNeedsAccount(w.book, NewFill(o, cfg, intent, price, now, roll), IsBuy(intent.side));
    }
  }

  lemma AppliedNeedsAccount(b: Book, fill: Fill, debit: bool)
    requires Conserved(b)
    ensures Applied(b, fill, debit).error.None? ==> CanOpen(b, fill.accountId)
    ensures Applied(b, fill, debit).error.Some? ==> Applied(b, fill, debit).book.ledger == b.ledger
    ensures Applied(b, fill, debit).error != Some(InvalidTransition)
  {
    hide Conserved, Cost;
    EnsuredKeeps(b, fill.accountId);
  }

  /** The world after a step, the account it concerned and the entry it booked, if any. */
  ghost predicate StepEffect(w: World, r: Result, account: string, e: Option<Entry>) {
    && WorldSound(r.world)
    && BookStep(w.book, r.world.book, account, e)
    && FillsAppended(w, r.world, e)
    && (r.error.Some? ==> e == None)
  }

  /** Every order but one is exactly as it was. */
  ghost predicate OthersSame(w: World, w': World, id: string) {
    && w.orders.Keys <= w'.orders.Keys <= w.orders.Keys + {id}
    && forall other :: other in w.orders && other != id ==> w'.orders[other] == w.orders[other]
  }

  lemma FillCases(w: World, cfg: Config, intent: Intent, id: string, price: real, now: int, roll: real)
    requires WorldSound(w) && id in w.orders && !IsTerminal(w.orders[id].status)
    ensures var o, r := w.orders[id], FillAttempted(w, cfg, intent, id, price, now, roll);
      if !WillFill(o, cfg, intent, price, roll) || !IsIsolated(o.accountId) then r.world == w
      else
        var fill := NewFill(o, cfg, intent, price, now, roll);
        var applied := Applied(w.book, fill, IsBuy(intent.side));
        && fill.orderId == id && fill.accountId == o.accountId && fill.quantity <= o.requested - o.filled
        && (applied.error.Some? ==> r == Result(w.(book := applied.book), applied.error))
        && (applied.error.None? ==>
              && o.status in {Acknowledged, PartiallyFilled}
              && r == Result(World(applied.book, w.orders[id := WithFill(o, fill, now)]), None))
  {
    hide Conserved, Applied;
    var o := w.orders[id];
    assert OrderSound(o) && OrderBacked(w.book, o);
    if WillFill(o, cfg, intent, price, roll) && IsIsolated(o.accountId) {
      AppliedNeedsAccount(w.book, NewFill(o, cfg, intent, price, now, roll), IsBuy(intent.side));
    }
  }

  /** A change of book that books no fill leaves the orders alone. */
  lemma UnfilledStep(w: World, b': Book, account: string, error: Option<Error>, id: string)
    requires WorldSound(w) && BookStep(w.book, b', account, None)
    ensures StepEffect(w, Result(w.(book := b'), error), account, None) && OthersSame(w, w.(book := b'), id)
  {
    hide WorldSound, BookStep;
    OrdersFollowBook(w, b', account, None);
  }

  lemma FillStep(w: World, cfg: Config, intent: Intent, id: string, price: real, now: int, roll: real)
    returns (e: Option<Entry>)
    requires WorldSound(w) && id in w.orders && !IsTerminal(w.orders[id].status)
    ensures var r := FillAttempted(w, cfg, intent, id, price, now, roll);
      StepEffect(w, r, w.orders[id].accountId, e) && OthersSame(w, r.world, id)
    ensures e.Some? ==> e.value.FillEntry? && e.value.debit == IsBuy(intent.side)
  {
    hide FillAttempted, WillFill, NewFill, WithFill, Applied, OrderSound, BookStep, Conserved;
    var o := w.orders[id];
    FillCases(w, cfg, intent, id, price, now, roll);
    BookSound(w);
    hide WorldSound, FillsAppended;
    var r := FillAttempted(w, cfg, intent, id, price, now, roll);
    e := None;
    if WillFill(o, cfg, intent, price, roll) && IsIsolated(o.accountId) {
      var fill, debit := NewFill(o, cfg, intent, price, now, roll), IsBuy(intent.side);
      var applied := Applied(w.book, fill, debit);
      AppliedStep(w.book, fill, debit);
      if applied.error.None? {
        e := Some(FillEntry(fill, debit));
        FillRecorded(w, applied.book, fill, debit, now);
      } else {
        UnfilledStep(w, applied.book, o.accountId, applied.error, id);
      }
    } else {
      NothingStep(w.book, o.accountId);
      UnfilledStep(w, w.book, o.accountId, r.error, id);
    }
  }

  lemma NothingStep(b: Book, id: string)
    requires Conserved(b)
    ensures BookStep(b, b, id, None)
  {
    hide Conserved;
  }

  lemma FillRecorded(w: World, b': Book, fill: Fill, debit: bool, now: int)
    requires WorldSound(w) && fill.orderId in w.orders
    requires var o := w.orders[fill.orderId];
      o.status in {Acknowledged, PartiallyFilled} && fill.accountId == o.accountId
          && fill.quantity <= o.requested - o.filled
    requires BookStep(w.book, b', fill.accountId, Some(FillEntry(fill, debit)))
    ensures var w' := World(b', w.orders[fill.orderId := WithFill(w.orders[fill.orderId], fill, now)]);
      WorldSound(w') && FillsAppended(w, w', Some(FillEntry(fill, debit)))
  {
    hide Conserved, OrderSound, WithFill;
    var o := w.orders[fill.orderId];
    WithFillSound(o, fill, now);
    var w' := World(b', w.orders[fill.orderId := WithFill(o, fill, now)]);
    forall id | id in w'.orders ensures FillsOf(b'.ledger, id) == w'.orders[id].fills {
      FillsExtend(w.book.ledger, FillEntry(fill, debit), id);
    }
  }

  function Recorded(intent: Intent, id: string, now: int, status: Status, reason: string): OrderState {
    NewOrder(intent, id, now).(status := status, reason := reason)
  }

  lemma RecordedSound(intent: Intent, id: string, now: int, status: Status, reason: string)
    requires status in {Created, Acknowledged, Rejected, Expired}
    ensures var o := Recorded(intent, id, now, status, reason);
      && OrderSound(o) && o.orderId == id && o.accountId == intent.accountId && o.status == status
      && o.fills == [] && o.filled == 0
  {
  }

  lemma NewOrderRecorded(w: World, b': Book, intent: Intent, id: string, now: int, status: Status, reason: string)
    requires WorldSound(w) && id !in w.orders && BookStep(w.book, b', intent.accountId, None)
    requires status in {Created, Acknowledged, Rejected, Expired}
    requires if status == Created then !CanOpen(b', intent.accountId) else intent.accountId in b'.accounts
    ensures var w' := World(b', w.orders[id := Recorded(intent, id, now, status, reason)]);
      WorldSound(w') && FillsAppended(w, w', None)
  {
    hide Conserved, OrderSound, Recorded;
    OrdersFollowBook(w, b', intent.accountId, None);
    RecordedSound(intent, id, now, status, reason);
    OrderReplaced(w.(book := b'), Recorded(intent, id, now, status, reason));
  }

  lemma SubmitEffect(w: World, cfg: Config, intent: Intent, contentHash: string, now: int, roll: real)
    returns (e: Option<Entry>)
    requires WorldSound(w) && OrderIdOf(intent, contentHash) !in w.orders
    ensures var r := Submitted(w, cfg, intent, contentHash, now, roll);
      StepEffect(w, r, intent.accountId, e) && OthersSame(w, r.world, OrderIdOf(intent, contentHash))
    ensures e.Some? ==> e.value.FillEntry? && e.value.debit == IsBuy(intent.side)
  {
    hide FillAttempted, Ensured, BookStep, WorldSound;
    var id := OrderIdOf(intent, contentHash);
    var ensured := Ensured(w.book, intent.accountId);
    EnsuredOpens(w.book, intent.accountId);
    EnsuredStepSound(w, intent.accountId);
    e := None;
    if ensured.error.Some? {
      NewOrderRecorded(w, ensured.book, intent, id, now, Created, "");
    } else if cfg.rejectIfBlocked && ensured.book.accounts[intent.accountId].blocked {
      var reason := "account_blocked:" + ensured.book.accounts[intent.accountId].blockReason;
      NewOrderRecorded(w, ensured.book, intent, id, now, Rejected, reason);
    } else if ExpiredAt(intent, now) {
      NewOrderRecorded(w, ensured.book, intent, id, now, Expired, "expired_at_submit");
    } else {
      e := FirstFill(w, ensured.book, cfg, intent, id, now, roll);
    }
  }

  lemma EnsuredStepSound(w: World, id: string)
    requires WorldSound(w)
    ensures BookStep(w.book, Ensured(w.book, id).book, id, None)
  {
    hide BookStep;
    EnsuredStep(w.book, id);
  }

  lemma FirstFill(w: World, b': Book, cfg: Config, intent: Intent, id: string, now: int, roll: real)
    returns (e: Option<Entry>)
    requires WorldSound(w) && id !in w.orders && BookStep(w.book, b', intent.accountId, None)
      && intent.accountId in b'.accounts
    ensures var w1 := World(b', w.orders[id := Recorded(intent, id, now, Acknowledged, "acked")]);
      var r := FillAttempted(w1, cfg, intent, id, intent.limitPrice, now, roll);
      StepEffect(w, r, intent.accountId, e) && OthersSame(w, r.world, id)
    ensures e.Some? ==> e.value.FillEntry? && e.value.debit == IsBuy(intent.side)
  {
    hide FillAttempted, BookStep, WorldSound;
    NewOrderRecorded(w, b', intent, id, now, Acknowledged, "acked");
    RecordedSound(intent, id, now, Acknowledged, "acked");
    var w1 := World(b', w.orders[id := Recorded(intent, id, now, Acknowledged, "acked")]);
    e := FillStep(w1, cfg, intent, id, intent.limitPrice, now, roll);
    var r := FillAttempted(w1, cfg, intent, id, intent.limitPrice, now, roll);
    BookStepsCompose(w.book, b', r.world.book, intent.accountId, e);
  }

  lemma EnsuredOpens(b: Book, id: string)
    ensures var r := Ensured(b, id);
      if r.error.Some? then !CanOpen(r.book, id) else id in r.book.accounts
  {
  }

  lemma BookStepsCompose(b: Book, b1: Book, b2: Book, id: string, e: Option<Entry>)
    requires BookStep(b, b1, id, None) && BookStep(b1, b2, id, e)
    ensures BookStep(b, b2, id, e)
  {
    hide Conserved;
  }

  lemma QuoteEffect(w: World, cfg: Config, id: string, price: real, now: int, intent: Option<Intent>, roll: real)
    returns (account: string, e: Option<Entry>)
    requires WorldSound(w)
    ensures var r := Quoted(w, cfg, id, price, now, intent, roll);
      StepEffect(w, r, account, e) && OthersSame(w, r.world, id)
    ensures e.Some? ==> e.value.FillEntry? && e.value.debit == (intent.None? || IsBuy(intent.value.side))
  {
    hide FillAttempted, WorldSound, BookStep, FillsAppended;
    account, e := "", None;
    UnchangedEffect(w, id);
    if id in w.orders && !IsTerminal(w.orders[id].status) {
      account := w.orders[id].accountId;
      var used := if intent.Some? then intent.value else RebuiltIntent(w.orders[id]);
      if ExpiredAt(used, now) {
        RestingStatus(w, id);
        if w.orders[id].status != Created {
          ClosedEffect(w, id, Expired, now, "timeout");
        }
      } else {
        e := FillStep(w, cfg, used, id, price, now, roll);
      }
    }
  }

  lemma RestingStatus(w: World, id: string)
    requires WorldSound(w) && id in w.orders && !IsTerminal(w.orders[id].status)
    ensures w.orders[id].status in {Created, Acknowledged, PartiallyFilled}
    ensures OrdersAdmissible(w)
  {
    hide Conserved;
  }

  lemma UnchangedEffect(w: World, id: string)
    requires WorldSound(w)
    ensures OrdersAdmissible(w) && OthersSame(w, w, id)
    ensures forall error, account :: StepEffect(w, Result(w, error), account, None)
  {
    hide Conserved;
  }

  /** Resting orders can be expired or canceled, keeping their fills; one stuck in CREATED refuses. */
  lemma ClosedEffect(w: World, id: string, status: Status, now: int, reason: string)
    requires WorldSound(w) && id in w.orders && w.orders[id].status in {Acknowledged, PartiallyFilled}
    requires status in {Expired, Canceled}
    ensures var w' := w.(orders := w.orders[id := w.orders[id].(status := status, reason := reason, updatedAt := now)]);
      OthersSame(w, w', id) && forall account :: StepEffect(w, Result(w', None), account, None)
  {
    hide Conserved, OrderSound;
    var o := w.orders[id];
    assert OrderSound(o) && OrderBacked(w.book, o);
    BookSound(w);
    var o' := o.(status := status, reason := reason, updatedAt := now);
    ClosedSound(o, o');
    OrderReplaced(w, o');
    var w' := w.(orders := w.orders[id := o']);
    hide WorldSound, BookStep, OrderBacked;
    forall account ensures StepEffect(w, Result(w', None), account, None) {
      NothingStep(w.book, account);
    }
  }

  lemma ClosedSound(o: OrderState, o': OrderState)
    requires OrderSound(o) && o.status in {Acknowledged, PartiallyFilled} && o'.status in {Expired, Canceled}
    requires o' == o.(status := o'.status, reason := o'.reason, updatedAt := o'.updatedAt)
    ensures OrderSound(o')
  {
  }

  lemma CancelEffect(w: World, id: string, now: int)
    requires WorldSound(w)
    ensures var r := CancelRequested(w, id, now);
      StepEffect(w, r, "", None) && OthersSame(w, r.world, id)
  {
    hide WorldSound, StepEffect;
    UnchangedEffect(w, id);
    if id in w.orders && !IsTerminal(w.orders[id].status) {
      RestingStatus(w, id);
      if w.orders[id].status != Created {
        ClosedEffect(w, id, Canceled, now, "canceled");
      }
    }
  }

  predicate IsFill(e: Option<Entry>) { e.Some? && e.value.FillEntry? }

  /** Every step, raising or not, keeps the world sound, books at most one entry on one account, books
      nothing when it raises, and appends exactly the booked fill to exactly its order. */
  lemma StepKeeps(w: World, cfg: Config, step: Step) returns (account: string, e: Option<Entry>)
    requires WorldSound(w) && Fresh(w, step)
    ensures StepEffect(w, Next(w, cfg, step), account, e)
    ensures IsFill(e) ==> step.SubmitStep? || step.QuoteStep?
  {
    hide WorldSound, BookStep, Submitted, Quoted, CancelRequested, Realized, Registered, ReconciledBook;
    match step
    case SubmitStep(intent, contentHash, now, roll) =>
      account := intent.accountId;
      e := SubmitEffect(w, cfg, intent, contentHash, now, roll);
    case QuoteStep(id, price, now, intent, roll) =>
      account, e := QuoteEffect(w, cfg, id, price, now, intent, roll);
    case CancelStep(id, now) =>
      account, e := "", None;
      CancelEffect(w, id, now);
    case RealizeStep(id, pnl, note) =>
      account := id;
      e := RealizeEffect(w, id, pnl, RealizeEvent(note), None);
    case CloseStep(id, position, pnl) =>
      account := id;
      e := RealizeEffect(w, id, pnl, CloseEvent(position), Some(position));
    case RegisterStep(id, position) =>
      account, e := id, None;
      BookEffect(w, Registered(w.book, id, position), id, None)
          by { BookSound(w); RegisteredStep(w.book, id, position); }
    case ReconcileStep(id, orders, positions, expected) =>
      account, e := id, None;
      BookEffect(w, ReconciledBook(w.book, id, orders, positions, expected), id, None)
        by { BookSound(w); ReconciledStep(w.book, id, orders, positions, expected); }
  }

  lemma ReconciledStep(b: Book, id: string, orders: seq<OrderState>, positions: seq<Position>,
                       expected: Option<Account>)
    requires Conserved(b) && (b.startingCash < 0.0 ==> b.accounts == map[])
    ensures BookStep(b, ReconciledBook(b, id, orders, positions, expected).book, id, None)
  {
    hide Conserved, BookStep, Reconciled, Ensured, Blocking;
    EnsuredStep(b, id);
    BlockingStep(b, id, "reconciliation_mismatch");
  }

  lemma BookSound(w: World)
    requires WorldSound(w)
    ensures Conserved(w.book) && (w.book.startingCash < 0.0 ==> w.book.accounts == map[])
  {
  }

  lemma BookEffect(w: World, r: BookResult, id: string, e: Option<Entry>)
    requires WorldSound(w) && BookStep(w.book, r.book, id, e) && !IsFill(e) && (r.error.Some? ==> e == None)
    ensures StepEffect(w, OnBook(w, r), id, e)
  {
    hide BookStep;
    OrdersFollowBook(w, r.book, id, e);
  }

  lemma RealizeEffect(w: World, id: string, pnl: real, event: Event, closing: Option<string>) returns (e: Option<Entry>)
    requires WorldSound(w)
    ensures StepEffect(w, OnBook(w, Realized(w.book, id, pnl, event, closing)), id, e) && !IsFill(e)
  {
    hide BookStep, Realized;
    var r := Realized(w.book, id, pnl, event, closing);
    RealizedStep(w.book, id, pnl, event, closing);
    e := if r.error.None? then Some(PnlEntry(id, pnl)) else None;
    BookEffect(w, r, id, e);
  }

  // ----- Progress of one order -----

  /** Contracts still to fill, plus one while the order is live. */
  function Potential(o: OrderState): int {
    o.requested - o.filled + if IsTerminal(o.status) then 0 else 1
  }

  ghost predicate Progress(o: OrderState, o': OrderState) {
    && o'.requested == o.requested && o'.orderId == o.orderId && o'.accountId == o.accountId
    && (o' == o || (!IsTerminal(o.status) && Potential(o') < Potential(o)))
  }

  lemma FillProgress(w: World, cfg: Config, intent: Intent, id: string, price: real, now: int, roll: real)
    requires WorldSound(w) && id in w.orders && !IsTerminal(w.orders[id].status)
    ensures id in FillAttempted(w, cfg, intent, id, price, now, roll).world.orders
    ensures Progress(w.orders[id], FillAttempted(w, cfg, intent, id, price, now, roll).world.orders[id])
  {
    hide FillAttempted, Applied, NewFill;
    RestingStatus(w, id);
    FillCases(w, cfg, intent, id, price, now, roll);
  }

  /** A step leaves an order exactly as it was or moves it strictly closer to its end; a terminal order never moves. */
  lemma StepProgress(w: World, cfg: Config, step: Step, id: string)
    requires WorldSound(w) && Fresh(w, step) && id in w.orders
    ensures id in Next(w, cfg, step).world.orders && Progress(w.orders[id], Next(w, cfg, step).world.orders[id])
  {
    hide WorldSound, Submitted, FillAttempted, StepEffect;
    UnchangedEffect(w, id);
    match step
    case SubmitStep(intent, contentHash, now, roll) =>
      var e := SubmitEffect(w, cfg, intent, contentHash, now, roll);
    case QuoteStep(other, price, now, intent, roll) =>
      if other == id && !IsTerminal(w.orders[id].status) {
        RestingStatus(w, id);
        FillProgress(w, cfg, if intent.Some? then intent.value else RebuiltIntent(w.orders[id]), id, price, now, roll);
      } else {
        var account, e := QuoteEffect(w, cfg, other, price, now, intent, roll);
      }
    case CancelStep(other, now) => CancelEffect(w, other, now);
    case _ =>
  }

  // ----- Runs -----

  /** Each world follows from the one before by a step with a fresh id, raising or not. */
  ghost predicate IsChain(cfg: Config, steps: seq<Step>, worlds: seq<World>) {
    && |worlds| == |steps| + 1
    && forall i :: 0 <= i < |steps| ==> Follows(cfg, worlds[i], steps[i], worlds[i + 1])
  }

  /** A run starts in a sound world, such as the empty one. */
  ghost predicate IsRun(cfg: Config, steps: seq<Step>, worlds: seq<World>) {
    IsChain(cfg, steps, worlds) && WorldSound(worlds[0])
  }

  ghost predicate Follows(cfg: Config, w: World, step: Step, w': World) {
    OrdersAdmissible(w) && Fresh(w, step) && w' == Next(w, cfg, step).world
  }

  function EmptyWorld(startingCash: real): World { World(Book(startingCash, map[], []), map[]) }

  /** An order left in CREATED by a submission that raised never moves again: its account cannot be opened. */
  lemma CreatedIsStuck(w: World, cfg: Config, step: Step, id: string)
    requires WorldSound(w) && Fresh(w, step) && id in w.orders && w.orders[id].status == Created
    ensures id in Next(w, cfg, step).world.orders && Next(w, cfg, step).world.orders[id] == w.orders[id]
    ensures step.QuoteStep? && step.orderId == id ==> Next(w, cfg, step).world.book.ledger == w.book.ledger
  {
    hide Conserved, Submitted, FillAttempted, StepEffect, OrderSound, Applied, Realized, Registered;
    StepProgress(w, cfg, step, id);
    match step
    case SubmitStep(intent, contentHash, now, roll) =>
      var e := SubmitEffect(w, cfg, intent, contentHash, now, roll);
    case QuoteStep(other, price, now, intent, roll) =>
      if other == id {
        StuckFill(w, cfg, if intent.Some? then intent.value else RebuiltIntent(w.orders[id]), id, price, now, roll);
      } else {
        var account, e := QuoteEffect(w, cfg, other, price, now, intent, roll);
      }
    case CancelStep(other, now) =>
      if other != id { CancelEffect(w, other, now); }
    case _ =>
  }

  /** A fresh submission is left in CREATED exactly when its account cannot be opened: the id names no
      isolated account, or the starting cash is negative. */
  lemma LeftInCreatedExactly(w: World, cfg: Config, intent: Intent, contentHash: string, now: int, roll: real)
    requires WorldSound(w) && OrderIdOf(intent, contentHash) !in w.orders
    ensures var id, r := OrderIdOf(intent, contentHash), Submitted(w, cfg, intent, contentHash, now, roll);
      && id in r.world.orders
      && (r.world.orders[id].status == Created <==> !CanOpen(w.book, intent.accountId))
      && (r.world.orders[id].status == Created ==> r.error.Some?)
  {
    hide Conserved, Admitted, OrderSound, Reconciled;
    var id, r := OrderIdOf(intent, contentHash), Submitted(w, cfg, intent, contentHash, now, roll);
    var e := SubmitEffect(w, cfg, intent, contentHash, now, roll);
    SubmittedIsRecorded(w, cfg, intent, contentHash, now, roll);
    assert OrderBacked(r.world.book, r.world.orders[id]);
  }

  lemma SubmittedIsRecorded(w: World, cfg: Config, intent: Intent, contentHash: string, now: int, roll: real)
    ensures var id, o := OrderIdOf(intent, contentHash), Submitted(w, cfg, intent, contentHash, now, roll).world.orders;
      id in o && o[id].accountId == intent.accountId
  {
    hide Applied, Ensured;
  }

  /** From then on it stays as it is, however long the run. */
  lemma {:induction false} CreatedForever(cfg: Config, steps: seq<Step>, worlds: seq<World>, from: nat, to: nat,
                                          id: string)
    requires IsRun(cfg, steps, worlds) && from <= to <= |steps|
    requires id in worlds[from].orders && worlds[from].orders[id].status == Created
    ensures id in worlds[to].orders && worlds[to].orders[id] == worlds[from].orders[id]
  {
    hide WorldSound, Next;
    if from < to {
      CreatedForever(cfg, steps, worlds, from, to - 1, id);
      RunSound(cfg, steps, worlds, to - 1);
      assert Follows(cfg, worlds[to - 1], steps[to - 1], worlds[to]);
      CreatedIsStuck(worlds[to - 1], cfg, steps[to - 1], id);
    }
  }

  /** An intent that names no account, as intents do by default. */
  function UnnamedAccountIntent(): Intent {
    IntentData("", "", "c", "buy_to_open", 1, 2.0, None, None, 1.0, 0.65)
  }

  lemma UnnamedAccountStaysCreated(cfg: Config, startingCash: real, now: int, roll: real)
    ensures var r := Submitted(EmptyWorld(startingCash), cfg, UnnamedAccountIntent(), "hash", now, roll);
      && r.error == Some(UnknownAccount)
      && "hash" in r.world.orders && r.world.orders["hash"].status == Created
  {
    assert "system_b_challenger_"[0] == 's';
    assert !IsIsolated("");
  }

  lemma StuckFill(w: World, cfg: Config, intent: Intent, id: string, price: real, now: int, roll: real)
    requires WorldSound(w) && id in w.orders && w.orders[id].status == Created
    ensures FillAttempted(w, cfg, intent, id, price, now, roll).world.orders == w.orders
    ensures FillAttempted(w, cfg, intent, id, price, now, roll).world.book.ledger == w.book.ledger
  {
    hide FillAttempted, NewFill, Conserved, WillFill;
    FillCases(w, cfg, intent, id, price, now, roll);
  }

  lemma EmptyWorldSound(startingCash: real)
    ensures WorldSound(EmptyWorld(startingCash))
  {
  }

  /** The invariant holds at every point of every run. */
  lemma {:induction false} RunSound(cfg: Config, steps: seq<Step>, worlds: seq<World>, n: nat)
    requires IsRun(cfg, steps, worlds) && n <= |steps|
    ensures WorldSound(worlds[n]) && worlds[n].book.startingCash == worlds[0].book.startingCash
  {
    hide WorldSound, Next;
    if n > 0 {
      RunSound(cfg, steps, worlds, n - 1);
      assert Follows(cfg, worlds[n - 1], steps[n - 1], worlds[n]);
      var account, e := StepKeeps(worlds[n - 1], cfg, steps[n - 1]);
    }
  }

  /** Cash is conserved over every run: starting cash, less buy fills, plus sell fills as computed, plus realized P&L;
      it never goes negative, and the fills booked for an order are the fills the order carries. */
  lemma RunConservesCash(cfg: Config, startingCash: real, steps: seq<Step>, worlds: seq<World>, n: nat)
    requires IsChain(cfg, steps, worlds) && worlds[0] == EmptyWorld(startingCash) && n <= |steps|
    ensures forall id :: id in worlds[n].book.accounts ==>
      && worlds[n].book.accounts[id].cash == startingCash + Booked(worlds[n].book.ledger, id)
      && worlds[n].book.accounts[id].cash >= 0.0
    ensures forall id :: id in worlds[n].orders ==> FillsOf(worlds[n].book.ledger, id) == worlds[n].orders[id].fills
    ensures forall id :: id in worlds[n].orders ==> OrderSound(worlds[n].orders[id])
  {
    EmptyWorldSound(startingCash);
    RunSound(cfg, steps, worlds, n);
    assert forall id :: id in worlds[n].book.accounts ==> AccountConserved(worlds[n].book, id);
  }

  lemma {:induction false} OrderPersists(cfg: Config, steps: seq<Step>, worlds: seq<World>, from: nat, to: nat,
                                         id: string)
    requires IsRun(cfg, steps, worlds) && from <= to <= |steps| && id in worlds[from].orders
    ensures id in worlds[to].orders
    ensures IsTerminal(worlds[from].orders[id].status) ==> worlds[to].orders[id] == worlds[from].orders[id]
    ensures Potential(worlds[to].orders[id]) <= Potential(worlds[from].orders[id])
  {
    hide WorldSound, Next;
    if from < to {
      OrderPersists(cfg, steps, worlds, from, to - 1, id);
      RunSound(cfg, steps, worlds, to - 1);
      assert Follows(cfg, worlds[to - 1], steps[to - 1], worlds[to]);
      StepProgress(worlds[to - 1], cfg, steps[to - 1], id);
    }
  }

  /** How often an order changes between two points of a run. */
  ghost function Changes(worlds: seq<World>, from: nat, to: nat, id: string): nat
    requires from <= to < |worlds| && forall i :: from <= i <= to ==> id in worlds[i].orders
  {
    if from == to then 0
    else Changes(worlds, from, to - 1, id) + if worlds[to].orders[id] != worlds[to - 1].orders[id] then 1 else 0
  }

  /** An order changes at most requested + 1 times, however long the run. */
  lemma {:induction false} ChangesBounded(cfg: Config, steps: seq<Step>, worlds: seq<World>, from: nat, to: nat,
                                          id: string)
    requires IsRun(cfg, steps, worlds) && from <= to <= |steps|
    requires forall i :: from <= i <= to ==> id in worlds[i].orders
    ensures Changes(worlds, from, to, id) <= Potential(worlds[from].orders[id]) - Potential(worlds[to].orders[id])
    ensures Changes(worlds, from, to, id) <= worlds[from].orders[id].requested + 1
  {
    hide WorldSound, Next;
    RunSound(cfg, steps, worlds, from);
    SoundOrder(worlds[from], id);
    RunSound(cfg, steps, worlds, to);
    SoundOrder(worlds[to], id);
    if from < to {
      ChangesBounded(cfg, steps, worlds, from, to - 1, id);
      RunSound(cfg, steps, worlds, to - 1);
      assert Follows(cfg, worlds[to - 1], steps[to - 1], worlds[to]);
      StepProgress(worlds[to - 1], cfg, steps[to - 1], id);
    }
  }

  lemma SoundOrder(w: World, id: string)
    requires WorldSound(w) && id in w.orders
    ensures 0 <= w.orders[id].filled <= w.orders[id].requested
  {
    assert OrderSound(w.orders[id]);
  }

  // ----- Blocking -----

  function AccountFills(ledger: seq<Entry>, account: string): seq<Fill> {
    if ledger == [] then []
    else
      var last := ledger[|ledger| - 1];
      AccountFills(ledger[..|ledger| - 1], account)
          + if last.FillEntry? && last.fill.accountId == account then [last.fill] else []
  }

  lemma AccountFillsExtend(ledger: seq<Entry>, e: Entry, account: string)
    ensures AccountFills(ledger + [e], account)
         == AccountFills(ledger, account) + (if e.FillEntry? && e.fill.accountId == account then [e.fill] else [])
  {
    assert (ledger + [e])[..|ledger|] == ledger;
  }

  ghost predicate Blocked(w: World, account: string) {
    account in w.book.accounts && w.book.accounts[account].blocked
  }

  lemma BookStepBlocked(b: Book, b': Book, id: string, e: Option<Entry>, account: string)
    requires BookStep(b, b', id, e) && account in b.accounts && b.accounts[account].blocked
    ensures account in b'.accounts && b'.accounts[account].blocked
    ensures AccountFills(b'.ledger, account) == AccountFills(b.ledger, account)
  {
    hide Conserved;
    if e.Some? {
      AccountFillsExtend(b.ledger, e.value, account);
    } else {
      assert b'.ledger == b.ledger;
    }
  }

  /** Once an account is blocked no later step of any run lifts the block or fills an order on it. */
  lemma {:induction false} BlockedForever(cfg: Config, steps: seq<Step>, worlds: seq<World>, from: nat, to: nat,
                                          account: string)
    requires IsRun(cfg, steps, worlds) && from <= to <= |steps| && Blocked(worlds[from], account)
    ensures Blocked(worlds[to], account)
    ensures AccountFills(worlds[to].book.ledger, account) == AccountFills(worlds[from].book.ledger, account)
  {
    hide WorldSound, Next, BookStep, FillsAppended;
    if from < to {
      BlockedForever(cfg, steps, worlds, from, to - 1, account);
      RunSound(cfg, steps, worlds, to - 1);
      assert Follows(cfg, worlds[to - 1], steps[to - 1], worlds[to]);
      var touched, e := StepKeeps(worlds[to - 1], cfg, steps[to - 1]);
      BookStepBlocked(worlds[to - 1].book, worlds[to].book, touched, e, account);
    }
  }

  /** A reconciliation that does not agree blocks its account, if it can be opened at all, for the rest of
      the run; one that agrees leaves the block as it was. */
  lemma MismatchBlocks(cfg: Config, steps: seq<Step>, worlds: seq<World>, n: nat, m: nat)
    requires IsRun(cfg, steps, worlds) && n < m <= |steps| && steps[n].ReconcileStep?
    requires CanOpen(worlds[n].book, steps[n].accountId)
    ensures var id := steps[n].accountId;
      var acct := Ensured(worlds[n].book, id).book.accounts[id];
      if Reconciled(acct, id, steps[n].orders, steps[n].positions, steps[n].expected) then
        Blocked(worlds[n + 1], id) <==> acct.blocked
      else
        && Blocked(worlds[m], id)
        && AccountFills(worlds[m].book.ledger, id) == AccountFills(worlds[n].book.ledger, id)
  {
    hide WorldSound, AccountFills, Reconciled;
    assert Follows(cfg, worlds[n], steps[n], worlds[n + 1]);
    var id := steps[n].accountId;
    if Blocked(worlds[n + 1], id) { BlockedForever(cfg, steps, worlds, n + 1, m, id); }
  }

  // ----- A sell order booked as a buy -----

  function SampleConfig(): Config { Config(0.65, true, 0.65, true) }

  /** One contract to sell at 2.00, filled with probability one half. */
  function SellIntent(): Intent {
    IntentData("sell-1", "system_b_v2", "c", "sell_to_close", 1, 2.0, None, None, 0.5, 0.65)
  }

  /** Submitted with a roll that does not fill, then quoted at the limit without an intent. */
  function SellSteps(): seq<Step> {
    [SubmitStep(SellIntent(), "", 0, 0.9), QuoteStep("sell-1", 2.0, 1, None, 0.1)]
  }

  function RestingSell(): OrderState {
    NewOrder(SellIntent(), "sell-1", 0).(status := Acknowledged, reason := "acked")
  }

  /** The world in which the sell order rests. */
  ghost predicate SellRests(w: World) {
    && w.orders == map["sell-1" := RestingSell()]
    && w.book == Ensured(EmptyWorld(10000.0).book, "system_b_v2").book
  }

  lemma SellIsRecorded(w: World)
    requires w == Next(EmptyWorld(10000.0), SampleConfig(), SellSteps()[0]).world
    ensures SellRests(w)
  {
    var intent := SellIntent();
    assert "buy"[0] == 'b' && intent.side[0] == 's';
    assert !WillFill(RestingSell(), SampleConfig(), intent, 2.0, 0.9);
  }

  lemma SellFill()
    ensures var o, cfg, used := RestingSell(), SampleConfig(), RebuiltIntent(RestingSell());
      && WillFill(o, cfg, used, 2.0, 0.1) && IsBuy(used.side)
      && NewFill(o, cfg, used, 2.0, 1, 0.1) == FillData("sell-1", "system_b_v2", 1, 2.0, 0.65, 1)
  {
    hide Successors, Quantize;
  }

  lemma SellDebited(b: Book)
    requires b == Ensured(EmptyWorld(10000.0).book, "system_b_v2").book
    ensures var fill: Fill := FillData("sell-1", "system_b_v2", 1, 2.0, 0.65, 1);
      var r := Applied(b, fill, true);
      && r.error == None && r.book.ledger == [FillEntry(fill, true)]
      && "system_b_v2" in r.book.accounts && r.book.accounts["system_b_v2"].cash == 9997.35
  {
    var fill: Fill := FillData("sell-1", "system_b_v2", 1, 2.0, 0.65, 1);
    assert Cost(fill) == 2.65;
  }

  lemma SellIsBought(w: World)
    requires SellRests(w)
    ensures OrdersAdmissible(w)
    ensures var w' := Next(w, SampleConfig(), SellSteps()[1]).world;
      && "sell-1" in w'.orders && w'.orders["sell-1"].status == Filled
      && w'.book.ledger == [FillEntry(FillData("sell-1", "system_b_v2", 1, 2.0, 0.65, 1), true)]
      && "system_b_v2" in w'.book.accounts && w'.book.accounts["system_b_v2"].cash == 9997.35
  {
    hide Applied, Ensured, NewFill, WillFill, Quantize, TotalNotional;
    SellFill();
    SellDebited(w.book);
    assert Filled in Successors(Acknowledged);
  }

  /** A resting sell order is filled as a buy: the account pays 2.65 instead of receiving the sale. */
  lemma SellBookedAsBuy() returns (worlds: seq<World>)
    ensures !IsBuy(SellIntent().side)
    ensures IsChain(SampleConfig(), SellSteps(), worlds) && worlds[0] == EmptyWorld(10000.0)
    ensures worlds[1].orders["sell-1"].status == Acknowledged && worlds[1].book.ledger == []
    ensures worlds[2].orders["sell-1"].status == Filled
    ensures worlds[2].book.ledger == [FillEntry(FillData("sell-1", "system_b_v2", 1, 2.0, 0.65, 1), true)]
    ensures worlds[2].book.accounts["system_b_v2"].cash == 9997.35
  {
    assert "buy"[0] == 'b' && SellIntent().side[0] == 's';
    var cfg, steps := SampleConfig(), SellSteps();
    var w0 := EmptyWorld(10000.0);
    var w1 := Next(w0, cfg, steps[0]).world;
    SellIsRecorded(w1);
    SellIsBought(w1);
    worlds := [w0, w1, Next(w1, cfg, steps[1]).world];
    hide Next;
    assert Follows(cfg, worlds[0], steps[0], worlds[1]);
    assert Follows(cfg, worlds[1], steps[1], worlds[2]);
  }
}
