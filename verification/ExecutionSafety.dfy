/** What every ledger transaction keeps true of the tables taken together. */
module ExecutionSafety {
  import opened Outcomes
  import opened ExecutionModels
  import opened ExecutionLedger

  ghost predicate HasOrder(orders: seq<Order>, id: string) {
    exists i :: 0 <= i < |orders| && orders[i].signalId == id
  }

  ghost predicate OrderKnown(orders: seq<Order>, orderId: string) {
    exists i :: 0 <= i < |orders| && orders[i].orderId == orderId
  }

  /** States that say an order was sent. */
  predicate Executed(state: SignalState) {
    state == Submitted || state == PartiallyFilled || state == Filled || state == Uncertain
  }

  function SumFills(fills: seq<Fill>, orderId: string): int {
    if fills == [] then 0
    else SumFills(fills[..|fills| - 1], orderId)
         + (if fills[|fills| - 1].orderId == orderId then fills[|fills| - 1].quantity else 0)
  }

  lemma {:induction false} SumFillsConcat(fills: seq<Fill>, more: seq<Fill>, orderId: string)
    ensures SumFills(fills + more, orderId) == SumFills(fills, orderId) + SumFills(more, orderId)
  {
    if more == [] {
      assert fills + more == fills;
    } else {
      var n := |more| - 1;
      assert (fills + more)[..|fills + more| - 1] == fills + more[..n];
      SumFillsConcat(fills, more[..n], orderId);
    }
  }

  lemma {:induction false} SumFillsNone(fills: seq<Fill>, orderId: string)
    requires forall i :: 0 <= i < |fills| ==> fills[i].orderId != orderId
    ensures SumFills(fills, orderId) == 0
  {
    if fills != [] { SumFillsNone(fills[..|fills| - 1], orderId); }
  }

  /** Fills are positive, so an order whose fills sum to nothing has none. */
  lemma {:induction false} SumFillsZero(fills: seq<Fill>, orderId: string)
    requires forall k :: 0 <= k < |fills| ==> fills[k].quantity > 0
    ensures SumFills(fills, orderId) >= 0
    ensures SumFills(fills, orderId) == 0 ==> forall k :: 0 <= k < |fills| ==> fills[k].orderId != orderId
  {
    if fills != [] {
      SumFillsZero(fills[..|fills| - 1], orderId);
      assert forall k :: 0 <= k < |fills| - 1 ==> fills[k] == fills[..|fills| - 1][k];
    }
  }

  ghost predicate Row(t: Tables, plan: Plan, state: SignalState) {
    plan.signalId in t.signals && t.signals[plan.signalId] == SignalRow(plan, state)
  }

  /** What every recorded plan has passed, and an order row demands. */
  predicate Tradable(plan: Plan) {
    plan.quantity > 0 && plan.limitPrice > 0.0
  }

  ghost predicate SignalsOk(signals: map<string, SignalRow>) {
    && (forall id :: id in signals ==> signals[id].plan.signalId == id && Tradable(signals[id].plan))
    && (forall a, b :: (a in signals && b in signals
                        && signals[a].plan.correlationId == signals[b].plan.correlationId) ==> a == b)
  }

  /** The order asks for what the plan says. */
  ghost predicate MatchesPlan(o: Order, plan: Plan) {
    && o.correlationId == plan.correlationId && o.symbol == plan.symbol && o.securityId == plan.securityId
    && o.side == plan.side && o.quantity == plan.quantity && o.limitPrice == plan.limitPrice
  }

  /** Some part of the order is filled, at a price whenever it is not nothing. */
  ghost predicate FillRange(o: Order) {
    0 <= o.filledQuantity <= o.quantity && (o.filledQuantity > 0 ==> o.averageFillPrice.Some? && o.averageFillPrice.value > 0.0)
  }

  /** At most one order per signal and per correlation id, each matching its signal's plan. */
  ghost predicate OrdersOk(signals: map<string, SignalRow>, orders: seq<Order>) {
    && (forall i :: 0 <= i < |orders| ==>
          && orders[i].signalId in signals && MatchesPlan(orders[i], signals[orders[i].signalId].plan)
          && FillRange(orders[i]))
    && OrdersDistinct(orders)
  }

  /** What the state of a signal says of how much of its order is filled. */
  predicate StateFits(o: Order, state: SignalState) {
    match state
    case Filled => o.filledQuantity == o.quantity
    case PartiallyFilled => 0 < o.filledQuantity < o.quantity
    case Submitted => o.filledQuantity == 0
    case Uncertain => o.filledQuantity == 0
    case _ => false
  }

  ghost predicate FilledStates(signals: map<string, SignalRow>, orders: seq<Order>) {
    forall i :: 0 <= i < |orders| && orders[i].signalId in signals ==> StateFits(orders[i], signals[orders[i].signalId].state)
  }

  ghost predicate OrdersDistinct(orders: seq<Order>) {
    forall i, k :: 0 <= i < k < |orders| ==>
      && orders[i].orderId != orders[k].orderId
      && orders[i].correlationId != orders[k].correlationId
      && orders[i].signalId != orders[k].signalId
  }

  /** The fills of an order add up to its filled quantity, and no fill is an orphan. */
  ghost predicate FillsOk(orders: seq<Order>, fills: seq<Fill>) {
    && (forall i :: 0 <= i < |orders| ==> SumFills(fills, orders[i].orderId) == orders[i].filledQuantity)
    && (forall k :: 0 <= k < |fills| ==> OrderKnown(orders, fills[k].orderId) && fills[k].quantity > 0)
  }

  ghost predicate PositionMatches(orders: seq<Order>, p: PositionRow) {
    exists i :: 0 <= i < |orders| && Backs(orders[i], p)
  }

  /** The position is what the order bought or sold, at its average price. */
  ghost predicate Backs(o: Order, p: PositionRow) {
    && o.signalId == p.signalId && o.filledQuantity == p.quantity && o.securityId == p.securityId
    && o.symbol == p.symbol && o.side == p.side && o.averageFillPrice == Some(p.averageEntryPrice)
    && p.positionId == "position-" + o.orderId
  }

  ghost predicate HasPosition(positions: seq<PositionRow>, id: string) {
    exists i :: 0 <= i < |positions| && positions[i].signalId == id
  }

  /** Whatever was filled is held or was closed. */
  ghost predicate FillsHeld(orders: seq<Order>, positions: seq<PositionRow>) {
    forall i :: 0 <= i < |orders| && orders[i].filledQuantity > 0 ==> HasPosition(positions, orders[i].signalId)
  }

  /** At most one open position per security; a position holds what its order filled. */
  ghost predicate PositionsOk(orders: seq<Order>, positions: seq<PositionRow>) {
    && (forall i :: 0 <= i < |positions| ==> PositionMatches(orders, positions[i]) && positions[i].quantity > 0)
    && (forall i, k :: 0 <= i < k < |positions| ==>
          && positions[i].signalId != positions[k].signalId
          && !(positions[i].state.Open? && positions[k].state.Open?
               && positions[i].securityId == positions[k].securityId))
  }

  /** An order row exists exactly when the signal's state says so. */
  ghost predicate StatesOk(signals: map<string, SignalRow>, orders: seq<Order>) {
    forall id :: id in signals ==> (HasOrder(orders, id) <==> Executed(signals[id].state))
  }

  ghost predicate TablesInv(t: Tables) {
    && SignalsOk(t.signals) && OrdersOk(t.signals, t.orders) && FillsOk(t.orders, t.fills)
    && PositionsOk(t.orders, t.positions) && StatesOk(t.signals, t.orders)
    && FilledStates(t.signals, t.orders) && FillsHeld(t.orders, t.positions)
  }

  lemma RecordSignalInv(t: Tables, plan: Plan)
    requires TablesInv(t) && Tradable(plan) && RecordSignal(t, plan, Received).Ok?
    ensures TablesInv(RecordSignal(t, plan, Received).value)
  {
    hide FillsOk, PositionsOk, OrdersDistinct, FillsHeld, MatchesPlan, FillRange, StateFits;
  }

  /** A state change that agrees with the presence of an order keeps the invariant. */
  lemma UpdateStateInv(t: Tables, id: string, state: SignalState)
    requires TablesInv(t) && id in t.signals && (HasOrder(t.orders, id) <==> Executed(state))
    requires HasOrder(t.orders, id) ==> state == Uncertain && t.signals[id].state == Submitted
    ensures UpdateSignalState(t, id, state).Ok? && TablesInv(UpdateSignalState(t, id, state).value)
  {
    hide FillsOk, PositionsOk, HasOrder, SignalsOk, OrdersOk, FillsHeld, FilledStates;
    SignalsUpdated(t.signals, t.orders, id, state);
    StatesUpdated(t.signals, t.orders, id, state);
  }

  lemma StatesUpdated(signals: map<string, SignalRow>, orders: seq<Order>, id: string, state: SignalState)
    requires FilledStates(signals, orders) && id in signals
    requires HasOrder(orders, id) ==> state == Uncertain && signals[id].state == Submitted
    ensures FilledStates(signals[id := signals[id].(state := state)], orders)
  {
  }

  lemma SignalsUpdated(signals: map<string, SignalRow>, orders: seq<Order>, id: string, state: SignalState)
    requires SignalsOk(signals) && OrdersOk(signals, orders) && id in signals
    ensures var updated := signals[id := signals[id].(state := state)]; SignalsOk(updated) && OrdersOk(updated, orders)
  {
    hide Tradable, OrdersDistinct, MatchesPlan, FillRange;
  }

  /** What the controller promises of the rows it records together. */
  ghost predicate Coherent(t: Tables, o: Order, fills: seq<Fill>) {
    && o.signalId in t.signals
    && MatchesPlan(o, t.signals[o.signalId].plan)
    && (o.filledQuantity > 0 ==> o.averageFillPrice.Some?)
    && (forall k :: 0 <= k < |fills| ==> fills[k].orderId == o.orderId)
    && SumFills(fills, o.orderId) == o.filledQuantity
  }

  lemma UnknownUnfilled(t: Tables, o: Order)
    requires FillsOk(t.orders, t.fills) && OrderInsertable(t, o)
    ensures SumFills(t.fills, o.orderId) == 0
  {
    forall i | 0 <= i < |t.fills| ensures t.fills[i].orderId != o.orderId {
      assert OrderKnown(t.orders, t.fills[i].orderId);
    }
    SumFillsNone(t.fills, o.orderId);
  }

  lemma ExecutionFills(t: Tables, o: Order, fills: seq<Fill>, now: int)
    requires TablesInv(t) && Coherent(t, o, fills) && RecordExecution(t, o, fills, now).Ok?
    ensures var t' := RecordExecution(t, o, fills, now).value; FillsOk(t'.orders, t'.fills)
  {
    hide SignalsOk, PositionsOk, StatesOk, SumFills, OrdersOk, FilledStates, FillsHeld, MatchesPlan;
    var t' := RecordExecution(t, o, fills, now).value;
    forall i | 0 <= i < |t'.orders| ensures SumFills(t'.fills, t'.orders[i].orderId) == t'.orders[i].filledQuantity {
      SumFillsConcat(t.fills, fills, t'.orders[i].orderId);
      if i < |t.orders| {
        SumFillsNone(fills, t.orders[i].orderId);
      } else {
        UnknownUnfilled(t, o);
      }
    }
    forall k | 0 <= k < |t'.fills| ensures OrderKnown(t'.orders, t'.fills[k].orderId) && t'.fills[k].quantity > 0 {
      if k < |t.fills| {
        assert OrderKnown(t.orders, t.fills[k].orderId);
        var i :| 0 <= i < |t.orders| && t.orders[i].orderId == t.fills[k].orderId;
        assert t'.orders[i].orderId == t'.fills[k].orderId;
      } else {
        assert FillInsertable(t.orders + [o], t.fills + fills[..k - |t.fills|], fills[k - |t.fills|]);
        assert t'.orders[|t.orders|].orderId == t'.fills[k].orderId;
      }
    }
  }

  lemma ExecutionPositions(t: Tables, o: Order, fills: seq<Fill>, now: int)
    requires TablesInv(t) && Coherent(t, o, fills) && RecordExecution(t, o, fills, now).Ok?
    ensures var t' := RecordExecution(t, o, fills, now).value; PositionsOk(t'.orders, t'.positions)
  {
    hide SignalsOk, OrdersOk, StatesOk, FillsOk, FillsInsertable, OrderInsertable, PositionMatches, FilledStates, FillsHeld, MatchesPlan;
    var t' := RecordExecution(t, o, fills, now).value;
    forall i | 0 <= i < |t.positions| ensures PositionMatches(t'.orders, t.positions[i]) {
      MatchStays(t.orders, o, t.positions[i]);
    }
    if OpensPosition(o) { MatchNew(t.orders, o, now); }
  }

  lemma MatchStays(orders: seq<Order>, o: Order, p: PositionRow)
    requires PositionMatches(orders, p)
    ensures PositionMatches(orders + [o], p)
  {
    hide Backs;
    var k :| 0 <= k < |orders| && Backs(orders[k], p);
    assert (orders + [o])[k] == orders[k];
  }

  lemma MatchNew(orders: seq<Order>, o: Order, now: int)
    requires OpensPosition(o)
    ensures PositionMatches(orders + [o], PositionOf(o, now))
  {
    assert (orders + [o])[|orders|] == o;
  }

  lemma ExecutionStates(t: Tables, o: Order, fills: seq<Fill>, now: int)
    requires TablesInv(t) && Coherent(t, o, fills) && RecordExecution(t, o, fills, now).Ok?
    ensures var t' := RecordExecution(t, o, fills, now).value;
      SignalsOk(t'.signals) && OrdersOk(t'.signals, t'.orders) && StatesOk(t'.signals, t'.orders) && HasOrder(t'.orders, o.signalId)
  {
    hide PositionsOk, FillsOk, FillsInsertable, PositionInsertable, HasOrder, Tradable, FilledStates, FillsHeld, MatchesPlan;
    var t' := RecordExecution(t, o, fills, now).value;
    assert t'.orders[|t.orders|] == o;
    forall id ensures HasOrder(t'.orders, id) <==> HasOrder(t.orders, id) || id == o.signalId {
      HasOneMore(t.orders, o, id);
    }
  }

  lemma HasOneMore(orders: seq<Order>, o: Order, id: string)
    ensures HasOrder(orders + [o], id) <==> HasOrder(orders, id) || id == o.signalId
  {
    if HasOrder(orders, id) {
      var i :| 0 <= i < |orders| && orders[i].signalId == id;
      assert (orders + [o])[i].signalId == id;
    }
    assert (orders + [o])[|orders|] == o;
  }

  lemma ExecutionFilled(t: Tables, o: Order, fills: seq<Fill>, now: int)
    requires TablesInv(t) && Coherent(t, o, fills) && RecordExecution(t, o, fills, now).Ok?
    ensures var t' := RecordExecution(t, o, fills, now).value; FilledStates(t'.signals, t'.orders) && FillsHeld(t'.orders, t'.positions)
  {
    hide SignalsOk, OrdersOk, StatesOk, FillsOk, PositionsOk, FillsInsertable, PositionInsertable, MatchesPlan, SumFills;
    var t' := RecordExecution(t, o, fills, now).value;
    forall i | 0 <= i < |t'.orders| && t'.orders[i].filledQuantity > 0 ensures HasPosition(t'.positions, t'.orders[i].signalId) {
      if i < |t.orders| {
        var k :| 0 <= k < |t.positions| && t.positions[k].signalId == t.orders[i].signalId;
        assert t'.positions[k].signalId == t'.orders[i].signalId;
      } else {
        assert t'.positions[|t.positions|].signalId == o.signalId;
      }
    }
  }

  lemma RecordExecutionInv(t: Tables, o: Order, fills: seq<Fill>, now: int)
    requires TablesInv(t) && Coherent(t, o, fills) && RecordExecution(t, o, fills, now).Ok?
    ensures TablesInv(RecordExecution(t, o, fills, now).value)
    ensures HasOrder(RecordExecution(t, o, fills, now).value.orders, o.signalId)
  {
    ExecutionFills(t, o, fills, now);
    ExecutionPositions(t, o, fills, now);
    ExecutionStates(t, o, fills, now);
    ExecutionFilled(t, o, fills, now);
  }

  lemma ClosePositionInv(t: Tables, id: string, exitPrice: real, closedAt: int)
    requires TablesInv(t) && ClosePosition(t, id, exitPrice, closedAt).Ok?
    ensures TablesInv(ClosePosition(t, id, exitPrice, closedAt).value)
  {
    hide RealizedPnl, FillsOk, StatesOk, OrdersOk, SignalsOk, FilledStates, FillsHeld, PositionsOk;
    var i := FindOpen(t.positions, id);
    RowClosed(t.orders, t.positions, i, Closed(closedAt, RealizedPnl(t.positions[i], exitPrice)));
    StillHeld(t.orders, t.positions, i, Closed(closedAt, RealizedPnl(t.positions[i], exitPrice)));
  }

  lemma RowClosed(orders: seq<Order>, positions: seq<PositionRow>, k: nat, state: PositionState)
    requires PositionsOk(orders, positions) && k < |positions| && state.Closed?
    ensures PositionsOk(orders, positions[k := positions[k].(state := state)])
  {
    hide PositionMatches;
    var after := positions[k := positions[k].(state := state)];
    MatchClosed(orders, positions[k], state);
    assert forall i :: 0 <= i < |positions| && i != k ==> after[i] == positions[i];
  }

  lemma StillHeld(orders: seq<Order>, positions: seq<PositionRow>, k: nat, state: PositionState)
    requires FillsHeld(orders, positions) && k < |positions|
    ensures FillsHeld(orders, positions[k := positions[k].(state := state)])
  {
    var after := positions[k := positions[k].(state := state)];
    forall i | 0 <= i < |orders| && orders[i].filledQuantity > 0 ensures HasPosition(after, orders[i].signalId) {
      var j :| 0 <= j < |positions| && positions[j].signalId == orders[i].signalId;
      assert after[j].signalId == orders[i].signalId;
    }
  }

  lemma MatchClosed(orders: seq<Order>, p: PositionRow, state: PositionState)
    requires PositionMatches(orders, p)
    ensures PositionMatches(orders, p.(state := state))
  {
    var k :| 0 <= k < |orders| && Backs(orders[k], p);
    assert Backs(orders[k], p.(state := state));
  }
}
