/** The execution ledger: each transaction either commits rows that satisfy every table
    constraint or leaves the tables as they were. */
module ExecutionLedger {
  import opened Ordering
  import opened Outcomes
  import opened ExecutionModels

  // ----- transactions as functions of the tables -----

  predicate CorrelationUsed(t: Tables, c: string) {
    exists id :: id in t.signals && t.signals[id].plan.correlationId == c
  }

  /** Inserts a signal row; the signal id and the correlation id are both unique. */
  function RecordSignal(t: Tables, plan: Plan, state: SignalState): Result<Tables> {
    if plan.signalId in t.signals || CorrelationUsed(t, plan.correlationId)
    then Err("signal_id or correlation_id has already been recorded")
    else Ok(t.(signals := t.signals[plan.signalId := SignalRow(plan, state)]))
  }

  function UpdateSignalState(t: Tables, id: string, state: SignalState): Result<Tables> {
    if id !in t.signals then Err("signal does not exist")
    else Ok(t.(signals := t.signals[id := t.signals[id].(state := state)]))
  }

  /** One approval per existing signal. */
  function RecordApproval(t: Tables, id: string, approval: Approval): Result<Tables> {
    if approval.actor == "" || approval.reason == "" then Err("approval requires actor and reason")
    else if id !in t.signals || id in t.approvals then Err("signal is missing or already approved")
    else Ok(t.(approvals := t.approvals[id := approval]))
  }

  predicate OrderInsertable(t: Tables, o: Order) {
    && o.signalId in t.signals
    && (forall i :: 0 <= i < |t.orders| ==>
          t.orders[i].orderId != o.orderId && t.orders[i].correlationId != o.correlationId
          && t.orders[i].signalId != o.signalId)
    && o.quantity > 0 && 0 <= o.filledQuantity <= o.quantity && o.limitPrice > 0.0
    && (o.averageFillPrice.Some? ==> o.averageFillPrice.value > 0.0)
  }

  predicate FillInsertable(orders: seq<Order>, fills: seq<Fill>, f: Fill) {
    && (forall i :: 0 <= i < |fills| ==> fills[i].fillId != f.fillId)
    && (exists i :: 0 <= i < |orders| && orders[i].orderId == f.orderId)
    && f.quantity > 0 && f.price > 0.0
  }

  /** All fills can be inserted one after the other. */
  predicate FillsInsertable(orders: seq<Order>, fills: seq<Fill>, more: seq<Fill>) {
    forall k :: 0 <= k < |more| ==> FillInsertable(orders, fills + more[..k], more[k])
  }

  predicate PositionInsertable(t: Tables, p: PositionRow) {
    && p.quantity > 0 && p.averageEntryPrice > 0.0
    && (forall i :: 0 <= i < |t.positions| ==>
          && t.positions[i].positionId != p.positionId && t.positions[i].signalId != p.signalId
          && !(t.positions[i].state.Open? && t.positions[i].securityId == p.securityId))
  }

  function PositionOf(o: Order, now: int): PositionRow
    requires o.averageFillPrice.Some?
  {
    PositionRow("position-" + o.orderId, o.signalId, o.symbol, o.securityId, o.side, o.filledQuantity,
                o.averageFillPrice.value, Open, now)
  }

  predicate OpensPosition(o: Order) {
    o.filledQuantity > 0 && o.averageFillPrice.Some?
  }

  function ExecutedState(o: Order): SignalState {
    if o.filledQuantity == o.quantity then Filled else if o.filledQuantity != 0 then PartiallyFilled else Submitted
  }

  /** Order, fills, position and signal state in one transaction. */
  function RecordExecution(t: Tables, o: Order, fills: seq<Fill>, now: int): Result<Tables> {
    if !OrderInsertable(t, o) then Err("order constraint")
    else if !FillsInsertable(t.orders + [o], t.fills, fills) then Err("fill constraint")
    else if OpensPosition(o) && !PositionInsertable(t, PositionOf(o, now)) then Err("position constraint")
    else Ok(t.(
              orders := t.orders + [o],
              fills := t.fills + fills,
              positions := if OpensPosition(o) then t.positions + [PositionOf(o, now)] else t.positions,
              signals := t.signals[o.signalId := t.signals[o.signalId].(state := ExecutedState(o))]))
  }

  function RealizedPnl(p: PositionRow, exitPrice: real): real {
    (exitPrice - p.averageEntryPrice) * (p.quantity as real) * (if p.side == Buy then 1.0 else -1.0)
  }

  /** The row of an open position, or the number of rows. */
  function FindOpen(positions: seq<PositionRow>, id: string): (i: nat)
    ensures i <= |positions|
    ensures i < |positions| ==> positions[i].positionId == id && positions[i].state.Open?
    ensures i == |positions| ==> forall k :: 0 <= k < |positions| ==> !(positions[k].positionId == id && positions[k].state.Open?)
  {
    if positions == [] then 0
    else
      var n := |positions| - 1;
      var i := FindOpen(positions[..n], id);
      if i < n then i
      else if positions[n].positionId == id && positions[n].state.Open? then n
      else n + 1
  }

  function ClosePosition(t: Tables, id: string, exitPrice: real, closedAt: int): Result<Tables> {
    var i := FindOpen(t.positions, id);
    if exitPrice <= 0.0 then Err("exit price must be positive and finite")
    else if i == |t.positions| then Err("open position does not exist")
    else Ok(t.(positions := t.positions[i := t.positions[i].(state := Closed(closedAt, RealizedPnl(t.positions[i], exitPrice)))]))
  }

  predicate HasOpen(t: Tables, security: string) {
    exists i :: 0 <= i < |t.positions| && t.positions[i].state.Open? && t.positions[i].securityId == security
  }

  // ----- loss queries -----

  const DAY := 86_400_000_000

  /** The UTC day of an instant. */
  function DayOf(instant: int): int {
    instant / DAY
  }

  function DailyPnl(positions: seq<PositionRow>, day: int): real {
    if positions == [] then 0.0
    else
      var last := positions[|positions| - 1];
      DailyPnl(positions[..|positions| - 1], day)
      + (if last.state.Closed? && DayOf(last.state.closedAt) == day then last.state.realizedPnl else 0.0)
  }

  datatype ClosedRow = ClosedRow(closedAt: int, rowId: nat, pnl: real)

  function ClosedRows(positions: seq<PositionRow>): seq<ClosedRow> {
    if positions == [] then []
    else
      var n := |positions| - 1;
      ClosedRows(positions[..n])
      + (if positions[n].state.Closed? then [ClosedRow(positions[n].state.closedAt, n, positions[n].state.realizedPnl)] else [])
  }

  predicate LatestFirst(a: ClosedRow, b: ClosedRow) {
    a.closedAt > b.closedAt || (a.closedAt == b.closedAt && a.rowId >= b.rowId)
  }

  /** Closed positions, the latest first. */
  function ClosedLatestFirst(positions: seq<PositionRow>): seq<ClosedRow> {
    Sort(LatestFirst, ClosedRows(positions))
  }

  /** Length of the run of losses that ends the history. */
  function LosingRun(rows: seq<ClosedRow>): nat {
    if rows == [] || rows[0].pnl >= 0.0 then 0 else 1 + LosingRun(rows[1..])
  }

  function ConsecutiveLosses(positions: seq<PositionRow>): nat {
    LosingRun(ClosedLatestFirst(positions))
  }

  /** The losing run is the longest all-losing stretch at the end of the history. */
  lemma {:induction false} LosingRunMeaning(rows: seq<ClosedRow>)
    ensures LosingRun(rows) <= |rows|
    ensures forall i :: 0 <= i < LosingRun(rows) ==> rows[i].pnl < 0.0
    ensures LosingRun(rows) < |rows| ==> rows[LosingRun(rows)].pnl >= 0.0
  {
    if rows != [] && rows[0].pnl < 0.0 {
      LosingRunMeaning(rows[1..]);
      assert forall i :: 1 <= i < |rows| ==> rows[i] == rows[1..][i - 1];
    }
  }

  lemma LatestFirstOrder(positions: seq<PositionRow>)
    ensures multiset(ClosedLatestFirst(positions)) == multiset(ClosedRows(positions))
    ensures SortedBy(LatestFirst, ClosedLatestFirst(positions))
  {
    SortCorrect(LatestFirst, ClosedRows(positions));
  }

  // ----- the ledger object -----

  class Ledger {
    var signals: map<string, SignalRow>
    var approvals: map<string, Approval>
    var orders: seq<Order>
    var fills: seq<Fill>
    var positions: seq<PositionRow>
    var killSwitch: bool

    function Db(): Tables
      reads this
    {
      Tables(signals, approvals, orders, fills, positions, killSwitch)
    }

    constructor ()
      ensures Db() == EMPTY_TABLES
    {
      signals, approvals, orders, fills, positions, killSwitch := map[], map[], [], [], [], false;
    }

    method InsertSignal(plan: Plan, state: SignalState) returns (ok: bool)
      modifies this
      ensures ok <==> RecordSignal(old(Db()), plan, state).Ok?
      ensures Db() == if ok then RecordSignal(old(Db()), plan, state).value else old(Db())
    {
      if plan.signalId in signals || CorrelationUsed(Db(), plan.correlationId) { return false; }
      signals := signals[plan.signalId := SignalRow(plan, state)];
      return true;
    }

    method SetSignalState(id: string, state: SignalState) returns (ok: bool)
      modifies this
      ensures ok <==> UpdateSignalState(old(Db()), id, state).Ok?
      ensures Db() == if ok then UpdateSignalState(old(Db()), id, state).value else old(Db())
    {
      if id !in signals { return false; }
      signals := signals[id := signals[id].(state := state)];
      return true;
    }

    method InsertApproval(id: string, approval: Approval) returns (ok: bool)
      modifies this
      ensures ok <==> RecordApproval(old(Db()), id, approval).Ok?
      ensures Db() == if ok then RecordApproval(old(Db()), id, approval).value else old(Db())
    {
      if approval.actor == "" || approval.reason == "" || id !in signals || id in approvals { return false; }
      approvals := approvals[id := approval];
      return true;
    }

    /** Row by row inside one transaction: the first violated constraint rolls everything back. */
    method InsertExecution(o: Order, more: seq<Fill>, now: int) returns (ok: bool)
      modifies this
      ensures ok <==> RecordExecution(old(Db()), o, more, now).Ok?
      ensures Db() == if ok then RecordExecution(old(Db()), o, more, now).value else old(Db())
    {
      var before := Db();
      if !OrderInsertable(before, o) { return false; }
      orders := orders + [o];
      for k := 0 to |more|
        invariant Db() == before.(orders := before.orders + [o], fills := before.fills + more[..k])
        invariant forall i :: 0 <= i < k ==> FillInsertable(before.orders + [o], before.fills + more[..i], more[i])
      {
        if !FillInsertable(orders, fills, more[k]) {
          orders, fills := before.orders, before.fills;
          return false;
        }
        fills := fills + [more[k]];
        assert before.fills + more[..k + 1] == before.fills + more[..k] + [more[k]];
      }
      assert more[..|more|] == more;
      if OpensPosition(o) {
        if !PositionInsertable(before, PositionOf(o, now)) {
          orders, fills := before.orders, before.fills;
          return false;
        }
        positions := positions + [PositionOf(o, now)];
      }
      signals := signals[o.signalId := signals[o.signalId].(state := ExecutedState(o))];
      return true;
    }

    method Close(id: string, exitPrice: real, closedAt: int) returns (ok: bool)
      modifies this
      ensures ok <==> ClosePosition(old(Db()), id, exitPrice, closedAt).Ok?
      ensures Db() == if ok then ClosePosition(old(Db()), id, exitPrice, closedAt).value else old(Db())
    {
      if exitPrice <= 0.0 { return false; }
      var i := FindOpen(positions, id);
      if i == |positions| { return false; }
      var pnl := RealizedPnl(positions[i], exitPrice);
      positions := positions[i := positions[i].(state := Closed(closedAt, pnl))];
      return true;
    }

    method SetKillSwitch(active: bool)
      modifies this
      ensures Db() == old(Db()).(killSwitch := active)
    {
      killSwitch := active;
    }

    method DailyRealizedPnl(day: int) returns (total: real)
      ensures total == DailyPnl(positions, day)
    {
      total := 0.0;
      for i := 0 to |positions|
        invariant total == DailyPnl(positions[..i], day)
      {
        assert positions[..i + 1][..i] == positions[..i];
        var row := positions[i];
        if row.state.Closed? && DayOf(row.state.closedAt) == day { total := total + row.state.realizedPnl; }
      }
      assert positions[..|positions|] == positions;
    }

    /** Counts losses from the latest closed position back to the first that was not one. */
    method CountConsecutiveLosses() returns (count: nat)
      ensures count == ConsecutiveLosses(positions)
    {
      var rows := ClosedLatestFirst(positions);
      count := 0;
      while count < |rows| && rows[count].pnl < 0.0
        invariant count <= |rows|
        invariant LosingRun(rows) == count + LosingRun(rows[count..])
      {
        assert rows[count..][1..] == rows[count + 1..];
        count := count + 1;
      }
    }
  }
}
