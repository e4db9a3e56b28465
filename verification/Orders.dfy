/** Execution contracts and the order state machine
    (src/spy_der/contracts/execution.py, src/spy_der/execution/state_machine.py). */
module Orders {
  import opened Options

  datatype Status =
    | Created | Validated | SubmittedSimulated | Acknowledged
    | PartiallyFilled | Filled | CancelPending | Canceled
    | Rejected | Expired | Errored | Routed

  function Successors(status: Status): set<Status> {
    match status
    case Created => {Validated, Rejected, Errored, Routed, Canceled}
    case Validated => {SubmittedSimulated, Rejected, Expired, Errored, Routed}
    case SubmittedSimulated => {Acknowledged, Rejected, CancelPending, Expired, Errored}
    case Routed => {Acknowledged, PartiallyFilled, Filled, Canceled, Rejected, CancelPending, Expired, Errored}
    case Acknowledged => {PartiallyFilled, Filled, CancelPending, Rejected, Expired, Errored}
    case PartiallyFilled => {PartiallyFilled, Filled, CancelPending, Expired, Errored, Canceled}
    case CancelPending => {Canceled, PartiallyFilled, Filled, Errored}
    case Filled => {}
    case Canceled => {}
    case Rejected => {}
    case Expired => {}
    case Errored => {}
  }

  predicate IsTerminal(status: Status) {
    status in {Filled, Canceled, Rejected, Expired, Errored}
  }

  /** The terminal statuses are exactly the ones nothing leads out of. */
  lemma TerminalExactlyWhenStuck(status: Status)
    ensures IsTerminal(status) <==> Successors(status) == {}
  {
    match status
    case Created => assert Validated in Successors(status);
    case Validated => assert Rejected in Successors(status);
    case SubmittedSimulated => assert Rejected in Successors(status);
    case Routed => assert Rejected in Successors(status);
    case Acknowledged => assert Rejected in Successors(status);
    case PartiallyFilled => assert Filled in Successors(status);
    case CancelPending => assert Filled in Successors(status);
    case _ =>
  }

  const ISOLATED_ACCOUNTS: set<string> :=
    {"system_a_legacy", "system_b_legacy", "system_b_v2", "system_b_v3", "system_b_ensemble", "system_b_grok"}

  predicate IsIsolated(accountId: string) {
    accountId in ISOLATED_ACCOUNTS || "system_b_challenger_" <= accountId
  }

  datatype IntentData = IntentData(
    intentId: string,
    accountId: string,
    candidateId: string,
    side: string,
    contracts: int,
    limitPrice: real,
    createdAt: Option<int>,
    expiresAt: Option<int>,
    fillProbability: real,
    feePerContract: real)

  /** An intent as its constructor admits it. */
  type Intent = i: IntentData |
      (i.accountId == "" || IsIsolated(i.accountId)) && i.contracts > 0 && 0.0 <= i.fillProbability <= 1.0
    witness IntentData("", "", "", "buy_to_open", 1, 0.0, None, None, 1.0, 0.65)

  predicate IsBuy(side: string) { "buy" <= side }

  datatype FillData = FillData(orderId: string, accountId: string, quantity: int, price: real, fees: real,
                               filledAt: int)

  type Fill = f: FillData | IsIsolated(f.accountId) && f.quantity > 0
    witness FillData("", "system_b_v2", 1, 0.0, 0.0, 0)

  function Notional(f: Fill): real { f.quantity as real * f.price }

  datatype OrderState = OrderState(
    orderId: string,
    intentId: string,
    accountId: string,
    candidateId: string,
    status: Status,
    requested: int,
    filled: int,
    avgFillPrice: Option<real>,
    fees: real,
    fills: seq<Fill>,
    reason: string,
    createdAt: int,
    updatedAt: int,
    limitPrice: real)

  function TotalQuantity(fills: seq<Fill>): int {
    if fills == [] then 0 else TotalQuantity(fills[..|fills| - 1]) + fills[|fills| - 1].quantity
  }

  function TotalFees(fills: seq<Fill>): real {
    if fills == [] then 0.0 else TotalFees(fills[..|fills| - 1]) + fills[|fills| - 1].fees
  }

  function TotalNotional(fills: seq<Fill>): real {
    if fills == [] then 0.0 else TotalNotional(fills[..|fills| - 1]) + Notional(fills[|fills| - 1])
  }

  // ----- quantize(0.0001), half to even -----

  function RoundHalfEven(x: real): int {
    var f := x.Floor;
    var d := x - f as real;
    if d < 0.5 || (d == 0.5 && f % 2 == 0) then f else f + 1
  }

  function Quantize(x: real): real { RoundHalfEven(x * 10000.0) as real / 10000.0 }

  /** Quantizing moves a value by at most half a tick. */
  lemma QuantizeWithinHalfTick(x: real)
    ensures x - 0.00005 <= Quantize(x) <= x + 0.00005
  {
    var r := RoundHalfEven(x * 10000.0) as real;
    assert x * 10000.0 - 0.5 <= r <= x * 10000.0 + 0.5;
  }

  /** Exactly between two ticks it goes to the even one. */
  lemma QuantizeTiesToEven(k: int)
    ensures RoundHalfEven(k as real + 0.5) % 2 == 0
    ensures Quantize((k as real + 0.5) / 10000.0) == RoundHalfEven(k as real + 0.5) as real / 10000.0
  {
    assert (k as real + 0.5).Floor == k;
    assert (k as real + 0.5) / 10000.0 * 10000.0 == k as real + 0.5;
  }

  datatype Error =
    | UnknownAccount | UnknownOrder | AccountBlocked
    | InsufficientCash | NegativeBalance | InvalidTransition
}
