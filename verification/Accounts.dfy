/** Isolated paper account ledgers (src/spy_der/execution/accounts.py). */
module Accounts {
  import opened Options
  import opened Orders

  datatype Event =
    | BlockedEvent(reason: string) | FillEvent(fill: Fill)
    | RealizeEvent(note: string) | CloseEvent(positionId: string)

  datatype AccountData = AccountData(
    accountId: string,
    cash: real,
    equity: real,
    startingCash: real,
    openPositions: seq<string>,
    dailyPnl: real,
    tradeCount: int,
    blocked: bool,
    blockReason: string,
    events: seq<Event>)

  /** An account as its constructor admits it: isolated, and never in the red. */
  type Account = a: AccountData | IsIsolated(a.accountId) && a.cash >= 0.0 && a.equity >= 0.0
    witness AccountData("system_b_v2", 0.0, 0.0, 0.0, [], 0.0, 0, false, "", [])

  /** Every movement of cash, fills with the side they were booked on. */
  datatype Entry = FillEntry(fill: Fill, debit: bool) | PnlEntry(accountId: string, amount: real)

  datatype Book = Book(startingCash: real, accounts: map<string, Account>, ledger: seq<Entry>)

  datatype BookResult = BookResult(book: Book, error: Option<Error>)

  // ----- What each operation does to the book -----

  /** A negative starting balance is refused by the account's own constructor. */
  predicate CanOpen(b: Book, id: string) { IsIsolated(id) && (id in b.accounts || b.startingCash >= 0.0) }

  function Ensured(b: Book, id: string): BookResult {
    if !IsIsolated(id) then BookResult(b, Some(UnknownAccount))
    else if id in b.accounts then BookResult(b, None)
    else if b.startingCash < 0.0 then BookResult(b, Some(NegativeBalance))
    else
      var started := AccountData(id, b.startingCash, b.startingCash, b.startingCash, [], 0.0, 0, false, "", []);
      BookResult(b.(accounts := b.accounts[id := started]), None)
  }

  function Blocking(b: Book, id: string, reason: string): BookResult {
    var r := Ensured(b, id);
    if r.error.Some? then r
    else
      var acct := r.book.accounts[id];
      var updated := acct.(blocked := true, blockReason := reason, events := acct.events + [BlockedEvent(reason)]);
      BookResult(r.book.(accounts := r.book.accounts[id := updated]), None)
  }

  /** What a fill costs, or brings in, as computed: fees are added on both sides. */
  function Cost(fill: Fill): real { Notional(fill) + fill.fees }

  function Applied(b: Book, fill: Fill, debit: bool): BookResult {
    var r := Ensured(b, fill.accountId);
    if r.error.Some? then r
    else
      var acct := r.book.accounts[fill.accountId];
      var cash := if debit then acct.cash - Cost(fill) else acct.cash + Cost(fill);
      if acct.blocked then BookResult(r.book, Some(AccountBlocked))
      else if cash < 0.0 then BookResult(r.book, Some(InsufficientCash))
      else
        var updated := acct.(cash := cash, equity := cash, tradeCount := acct.tradeCount + (if debit then 1 else 0),
                             events := acct.events + [FillEvent(fill)]);
        BookResult(r.book.(accounts := r.book.accounts[fill.accountId := updated],
                           ledger := r.book.ledger + [FillEntry(fill, debit)]), None)
  }

  function Without(positions: seq<string>, id: string): seq<string> {
    if positions == [] then []
    else
      Without(positions[..|positions| - 1], id)
      + if positions[|positions| - 1] != id then [positions[|positions| - 1]] else []
  }

  function Realized(b: Book, id: string, pnl: real, event: Event, closing: Option<string>): BookResult {
    var r := Ensured(b, id);
    if r.error.Some? then r
    else
      var acct := r.book.accounts[id];
      var cash := acct.cash + pnl;
      if cash < 0.0 then BookResult(r.book, Some(NegativeBalance))
      else
        var positions := if closing.Some? then Without(acct.openPositions, closing.value) else acct.openPositions;
        var updated := acct.(cash := cash, equity := cash, openPositions := positions, dailyPnl := acct.dailyPnl + pnl,
                             events := acct.events + [event]);
        BookResult(r.book.(accounts := r.book.accounts[id := updated], ledger := r.book.ledger + [PnlEntry(id, pnl)]),
                   None)
  }

  function Registered(b: Book, id: string, position: string): BookResult {
    var r := Ensured(b, id);
    if r.error.Some? || position in r.book.accounts[id].openPositions then r
    else
      var acct := r.book.accounts[id];
      BookResult(r.book.(accounts := r.book.accounts[id := acct.(openPositions := acct.openPositions + [position])]),
                 None)
  }

  // ----- The book itself -----

  class IsolatedAccountBook {
    const startingCash: real
    var accounts: map<string, Account>
    ghost var ledger: seq<Entry>

    ghost function View(): Book
      reads this
    {
      Book(startingCash, accounts, ledger)
    }

    constructor (startingCash: real)
      ensures View() == Book(startingCash, map[], [])
    {
      this.startingCash := startingCash;
      accounts := map[];
      ledger := [];
    }

    method Ensure(id: string) returns (error: Option<Error>)
      modifies this
      ensures BookResult(View(), error) == Ensured(old(View()), id)
      ensures error.None? ==> id in accounts
    {
      if !IsIsolated(id) {
        return Some(UnknownAccount);
      }
      if id !in accounts {
        if startingCash < 0.0 {
          return Some(NegativeBalance);
        }
        var started := AccountData(id, startingCash, startingCash, startingCash, [], 0.0, 0, false, "", []);
        accounts := accounts[id := started];
      }
      return None;
    }

    method Block(id: string, reason: string) returns (error: Option<Error>)
      modifies this
      ensures BookResult(View(), error) == Blocking(old(View()), id, reason)
    {
      error := Ensure(id);
      if error.Some? {
        return;
      }
      var acct := accounts[id];
      accounts := accounts[id := acct.(blocked := true, blockReason := reason,
                                       events := acct.events + [BlockedEvent(reason)])];
    }

    method ApplyFill(fill: Fill, debit: bool) returns (error: Option<Error>)
      modifies this
      ensures BookResult(View(), error) == Applied(old(View()), fill, debit)
    {
      error := Ensure(fill.accountId);
      if error.Some? {
        return;
      }
      var acct := accounts[fill.accountId];
      if acct.blocked {
        return Some(AccountBlocked);
      }
      var notional := Notional(fill) + fill.fees;
      assert notional == Cost(fill);
      var cash := if debit then acct.cash - notional else acct.cash + notional;
      if cash < 0.0 {
        return Some(InsufficientCash);
      }
      var updated := acct.(cash := cash, equity := cash, tradeCount := acct.tradeCount + (if debit then 1 else 0),
                           events := acct.events + [FillEvent(fill)]);
      accounts := accounts[fill.accountId := updated];
      ledger := ledger + [FillEntry(fill, debit)];
    }

    method RegisterPosition(id: string, position: string) returns (error: Option<Error>)
      modifies this
      ensures BookResult(View(), error) == Registered(old(View()), id, position)
    {
      error := Ensure(id);
      if error.Some? || position in accounts[id].openPositions {
        return;
      }
      var acct := accounts[id];
      accounts := accounts[id := acct.(openPositions := acct.openPositions + [position])];
    }

    method RealizePnl(id: string, pnl: real, note: string) returns (error: Option<Error>)
      modifies this
      ensures BookResult(View(), error) == Realized(old(View()), id, pnl, RealizeEvent(note), None)
    {
      error := Ensure(id);
      if error.Some? {
        return;
      }
      var acct := accounts[id];
      var cash := acct.cash + pnl;
      if cash < 0.0 {
        return Some(NegativeBalance);
      }
      accounts := accounts[id := acct.(cash := cash, equity := cash, dailyPnl := acct.dailyPnl + pnl,
                                       events := acct.events + [RealizeEvent(note)])];
      ledger := ledger + [PnlEntry(id, pnl)];
    }

    method Others(positions: seq<string>, position: string) returns (remaining: seq<string>)
      ensures remaining == Without(positions, position)
    {
      remaining := [];
      for i := 0 to |positions|
        invariant remaining == Without(positions[..i], position)
      {
        assert positions[..i + 1][..i] == positions[..i];
        if positions[i] != position {
          remaining := remaining + [positions[i]];
        }
      }
      assert positions[..|positions|] == positions;
    }

    method ClosePosition(id: string, position: string, pnl: real) returns (error: Option<Error>)
      modifies this
      ensures BookResult(View(), error) == Realized(old(View()), id, pnl, CloseEvent(position), Some(position))
    {
      error := Ensure(id);
      if error.Some? {
        return;
      }
      var acct := accounts[id];
      var remaining := Others(acct.openPositions, position);
      var cash := acct.cash + pnl;
      if cash < 0.0 {
        return Some(NegativeBalance);
      }
      accounts := accounts[id := acct.(cash := cash, equity := cash, openPositions := remaining,
                                       dailyPnl := acct.dailyPnl + pnl,
                                       events := acct.events + [CloseEvent(position)])];
      ledger := ledger + [PnlEntry(id, pnl)];
    }
  }

  // ----- Conservation -----

  function EntryAccount(e: Entry): string {
    match e
    case FillEntry(fill, _) => fill.accountId
    case PnlEntry(id, _) => id
  }

  function Change(e: Entry): real {
    match e
    case FillEntry(fill, debit) => if debit then -Cost(fill) else Cost(fill)
    case PnlEntry(_, amount) => amount
  }

  /** Net cash booked to an account: sell fills and realized P&L less buy fills. */
  function Booked(ledger: seq<Entry>, id: string): real {
    if ledger == [] then 0.0
    else
      var last := ledger[|ledger| - 1];
      Booked(ledger[..|ledger| - 1], id) + if EntryAccount(last) == id then Change(last) else 0.0
  }

  function BookedPnl(ledger: seq<Entry>, id: string): real {
    if ledger == [] then 0.0
    else
      var last := ledger[|ledger| - 1];
      BookedPnl(ledger[..|ledger| - 1], id) + if last.PnlEntry? && last.accountId == id then last.amount else 0.0
  }

  function BuyFills(ledger: seq<Entry>, id: string): int {
    if ledger == [] then 0
    else
      var last := ledger[|ledger| - 1];
      BuyFills(ledger[..|ledger| - 1], id) + if last.FillEntry? && last.debit && last.fill.accountId == id then 1 else 0
  }

  ghost predicate AccountConserved(b: Book, id: string)
    requires id in b.accounts
  {
    var a := b.accounts[id];
    && a.accountId == id
    && a.startingCash == b.startingCash
    && a.cash == b.startingCash + Booked(b.ledger, id)
    && a.equity == a.cash
    && a.dailyPnl == BookedPnl(b.ledger, id)
    && a.tradeCount == BuyFills(b.ledger, id)
  }

  ghost predicate Conserved(b: Book) {
    && (forall id :: id in b.accounts ==> AccountConserved(b, id))
    && (forall e :: e in b.ledger ==> EntryAccount(e) in b.accounts)
  }

  /** An account nothing was booked to has no totals. */
  lemma {:induction false} NothingBooked(ledger: seq<Entry>, id: string)
    requires forall e :: e in ledger ==> EntryAccount(e) != id
    ensures Booked(ledger, id) == 0.0 && BookedPnl(ledger, id) == 0.0 && BuyFills(ledger, id) == 0
  {
    if ledger != [] {
      NothingBooked(ledger[..|ledger| - 1], id);
    }
  }

  lemma BookedExtends(ledger: seq<Entry>, e: Entry, id: string)
    ensures Booked(ledger + [e], id) == Booked(ledger, id) + (if EntryAccount(e) == id then Change(e) else 0.0)
    ensures BookedPnl(ledger + [e], id)
      == BookedPnl(ledger, id) + (if e.PnlEntry? && e.accountId == id then e.amount else 0.0)
    ensures BuyFills(ledger + [e], id)
      == BuyFills(ledger, id) + (if e.FillEntry? && e.debit && e.fill.accountId == id then 1 else 0)
  {
    assert (ledger + [e])[..|ledger|] == ledger;
  }

  /** b' differs from b at most in account id; an entry is booked, and only to id, exactly when cash moves. */
  ghost predicate TouchesOnly(b: Book, r: BookResult, id: string) {
    var b' := r.book;
    && b'.startingCash == b.startingCash
    && b.accounts.Keys <= b'.accounts.Keys <= b.accounts.Keys + {id}
    && (forall other :: other in b.accounts && other != id ==> b'.accounts[other] == b.accounts[other])
    && (b'.ledger == b.ledger || (r.error.None? && |b'.ledger| == |b.ledger| + 1 && b'.ledger[..|b.ledger|] == b.ledger
                                  && EntryAccount(b'.ledger[|b.ledger|]) == id))
  }

  lemma EnsuredKeeps(b: Book, id: string)
    requires Conserved(b)
    ensures Conserved(Ensured(b, id).book) && TouchesOnly(b, Ensured(b, id), id)
    ensures Ensured(b, id).book.ledger == b.ledger
    ensures Ensured(b, id).error.None? <==> CanOpen(b, id)
  {
    if id !in b.accounts {
      NothingBooked(b.ledger, id);
    }
  }

  /** The one step all cash-moving operations share: update one account and book the same amount. */
  lemma BookingKeeps(b: Book, id: string, a: Account, e: Entry)
    requires Conserved(b) && id in b.accounts && EntryAccount(e) == id
    requires var was := b.accounts[id];
      && a.accountId == id && a.startingCash == was.startingCash
      && a.cash == was.cash + Change(e) && a.equity == a.cash
      && a.dailyPnl == was.dailyPnl + (if e.PnlEntry? then e.amount else 0.0)
      && a.tradeCount == was.tradeCount + (if e.FillEntry? && e.debit then 1 else 0)
    ensures Conserved(b.(accounts := b.accounts[id := a], ledger := b.ledger + [e]))
  {
    hide Booked, BookedPnl, BuyFills;
    var b' := b.(accounts := b.accounts[id := a], ledger := b.ledger + [e]);
    forall other | other in b'.accounts ensures AccountConserved(b', other) {
      BookedExtends(b.ledger, e, other);
      assert AccountConserved(b, other);
    }
  }

  /** Changing an account's flags, positions or events books nothing. */
  lemma RelabelKeeps(b: Book, id: string, a: Account)
    requires Conserved(b) && id in b.accounts
    requires var was := b.accounts[id];
      && a.accountId == was.accountId && a.startingCash == was.startingCash && a.cash == was.cash
          && a.equity == was.equity
      && a.dailyPnl == was.dailyPnl && a.tradeCount == was.tradeCount
    ensures Conserved(b.(accounts := b.accounts[id := a]))
  {
    hide Booked, BookedPnl, BuyFills;
    var b' := b.(accounts := b.accounts[id := a]);
    forall other | other in b'.accounts ensures AccountConserved(b', other) {
      assert AccountConserved(b, other);
    }
  }

  lemma BlockingKeeps(b: Book, id: string, reason: string)
    requires Conserved(b)
    ensures Conserved(Blocking(b, id, reason).book) && TouchesOnly(b, Blocking(b, id, reason), id)
    ensures Blocking(b, id, reason).book.ledger == b.ledger
  {
    hide Conserved;
    EnsuredKeeps(b, id);
    if CanOpen(b, id) {
      RelabelKeeps(Ensured(b, id).book, id, Blocking(b, id, reason).book.accounts[id]);
    }
  }

  lemma RegisteredKeeps(b: Book, id: string, position: string)
    requires Conserved(b)
    ensures Conserved(Registered(b, id, position).book) && TouchesOnly(b, Registered(b, id, position), id)
    ensures Registered(b, id, position).book.ledger == b.ledger
  {
    hide Conserved;
    EnsuredKeeps(b, id);
    if CanOpen(b, id) {
      RelabelKeeps(Ensured(b, id).book, id, Registered(b, id, position).book.accounts[id]);
    }
  }

  lemma AppliedKeeps(b: Book, fill: Fill, debit: bool)
    requires Conserved(b)
    ensures Conserved(Applied(b, fill, debit).book) && TouchesOnly(b, Applied(b, fill, debit), fill.accountId)
    ensures Applied(b, fill, debit).error.None? ==>
      Applied(b, fill, debit).book.ledger == b.ledger + [FillEntry(fill, debit)]
    ensures Applied(b, fill, debit).error.Some? ==> Applied(b, fill, debit).book.ledger == b.ledger
  {
    EnsuredKeeps(b, fill.accountId);
    var started, r := Ensured(b, fill.accountId).book, Applied(b, fill, debit);
    if r.error.None? {
      assert AccountConserved(started, fill.accountId);
      BookingKeeps(started, fill.accountId, r.book.accounts[fill.accountId], FillEntry(fill, debit));
    }
  }

  lemma RealizedKeeps(b: Book, id: string, pnl: real, event: Event, closing: Option<string>)
    requires Conserved(b)
    ensures Conserved(Realized(b, id, pnl, event, closing).book)
      && TouchesOnly(b, Realized(b, id, pnl, event, closing), id)
    ensures Realized(b, id, pnl, event, closing).error.None? ==>
      Realized(b, id, pnl, event, closing).book.ledger == b.ledger + [PnlEntry(id, pnl)]
    ensures Realized(b, id, pnl, event, closing).error.Some? ==>
      Realized(b, id, pnl, event, closing).book.ledger == b.ledger
  {
    EnsuredKeeps(b, id);
    var started, r := Ensured(b, id).book, Realized(b, id, pnl, event, closing);
    if r.error.None? {
      assert AccountConserved(started, id);
      BookingKeeps(started, id, r.book.accounts[id], PnlEntry(id, pnl));
    }
  }
}
