/** Broker-neutral execution contracts: plans, orders, fills, positions and the ledger tables.
    Text keys arrive stripped, so a blank one is the empty string. */
module ExecutionModels {
  import opened Outcomes

  datatype Mode = Off | DataOnly | PaperTrading | ManualApproval | LiveAutomatic

  datatype Side = Buy | Sell

  datatype SignalState = Received | Blocked | AwaitingApproval | Submitted | PartiallyFilled | Filled | Uncertain

  datatype OrderState = Pending | Acknowledged | OrderPartiallyFilled | OrderFilled | Rejected | Cancelled | Unknown

  datatype Plan = Plan(
    signalId: string, correlationId: string, symbol: string, securityId: string, side: Side, quantity: int,
    limitPrice: real, maximumLoss: real, signalTime: int, dataTime: int, validUntil: int, contractExpiry: int,
    eventRiskActive: Option<bool>, expiryRiskClear: bool, strategyVersion: string)

  datatype Order = Order(
    orderId: string, correlationId: string, signalId: string, symbol: string, securityId: string, side: Side,
    quantity: int, filledQuantity: int, limitPrice: real, averageFillPrice: Option<real>, state: OrderState,
    submittedAt: int)

  datatype Fill = Fill(fillId: string, orderId: string, quantity: int, price: real, complete: bool, filledAt: int)

  datatype PositionState = Open | Closed(closedAt: int, realizedPnl: real)

  datatype PositionRow = PositionRow(
    positionId: string, signalId: string, symbol: string, securityId: string, side: Side, quantity: int,
    averageEntryPrice: real, state: PositionState, openedAt: int)

  datatype SignalRow = SignalRow(plan: Plan, state: SignalState)

  datatype Approval = Approval(actor: string, reason: string, approvedAt: int)

  /** The ledger: rows are kept in insertion order where the order is observable. */
  datatype Tables = Tables(
    signals: map<string, SignalRow>, approvals: map<string, Approval>, orders: seq<Order>, fills: seq<Fill>,
    positions: seq<PositionRow>, killSwitch: bool)

  const EMPTY_TABLES := Tables(map[], map[], [], [], [], false)
}
