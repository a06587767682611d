/** The numbers behind the execution gates: what a close books, which losses a check adds up, what
    the paper broker fills and at which price, and which plans and acknowledgements pass. */
module ExecutionValues {
  import opened Ordering
  import opened Outcomes
  import opened ExecutionModels
  import opened ExecutionLedger
  import opened ExecutionSafety
  import opened ExecutionController
  import opened ExecutionProtocol

  // ----- closing a position -----

  ghost predicate OpenRow(positions: seq<PositionRow>, i: int, id: string) {
    0 <= i < |positions| && positions[i].positionId == id && positions[i].state.Open?
  }

  /** The cash that a position brings in when it is closed: what it was sold for less what it was
      bought for, whichever came first. */
  ghost function CashIn(p: PositionRow, exitPrice: real): real {
    var paid, received := p.averageEntryPrice * (p.quantity as real), exitPrice * (p.quantity as real);
    match p.side
    case Buy => received - paid
    case Sell => paid - received
  }

  lemma FlowLaw(p: PositionRow, exitPrice: real)
    ensures RealizedPnl(p, exitPrice) == CashIn(p, exitPrice)
  {
    var a, b, q := exitPrice, p.averageEntryPrice, p.quantity as real;
    assert (a - b) * q == a * q - b * q;
  }

  /** A close succeeds exactly for a positive price and an open row with the id; it books the cash
      of that row at that instant and changes nothing else. */
  lemma CloseLaw(t: Tables, id: string, exitPrice: real, closedAt: int)
    ensures ClosePosition(t, id, exitPrice, closedAt).Ok? <==> exitPrice > 0.0 && exists i :: OpenRow(t.positions, i, id)
    ensures ClosePosition(t, id, exitPrice, closedAt).Ok? ==>
      exists i :: OpenRow(t.positions, i, id)
        && ClosePosition(t, id, exitPrice, closedAt).value
           == t.(positions := t.positions[i := t.positions[i].(state := Closed(closedAt, CashIn(t.positions[i], exitPrice)))])
  {
    hide RealizedPnl, CashIn;
    var i := FindOpen(t.positions, id);
    if i < |t.positions| {
      FlowLaw(t.positions[i], exitPrice);
      assert OpenRow(t.positions, i, id);
    }
  }

  // ----- recording an execution -----

  ghost predicate OrderConstraints(t: Tables, o: Order) {
    && o.signalId in t.signals && o.quantity >= 1 && 0 <= o.filledQuantity <= o.quantity && o.limitPrice > 0.0
    && (o.averageFillPrice.None? || o.averageFillPrice.value > 0.0)
    && forall i :: 0 <= i < |t.orders| ==>
         t.orders[i].orderId != o.orderId && t.orders[i].correlationId != o.correlationId && t.orders[i].signalId != o.signalId
  }

  ghost predicate FillConstraints(t: Tables, o: Order, fills: seq<Fill>, k: nat)
    requires k < |fills|
  {
    && fills[k].quantity >= 1 && fills[k].price > 0.0
    && (fills[k].orderId == o.orderId || exists i :: 0 <= i < |t.orders| && t.orders[i].orderId == fills[k].orderId)
    && (forall i :: 0 <= i < |t.fills| ==> t.fills[i].fillId != fills[k].fillId)
    && (forall i :: 0 <= i < k ==> fills[i].fillId != fills[k].fillId)
  }

  ghost predicate PositionConstraints(t: Tables, o: Order) {
    forall i :: 0 <= i < |t.positions| ==>
      && t.positions[i].positionId != "position-" + o.orderId && t.positions[i].signalId != o.signalId
      && (t.positions[i].securityId == o.securityId ==> t.positions[i].state.Closed?)
  }

  /** One transaction, all or nothing: it commits exactly when the order, every fill in its turn and, if
      anything was filled at a price, the position meet the constraints of their tables. */
  lemma ExecutionConstraints(t: Tables, o: Order, fills: seq<Fill>, now: int)
    ensures RecordExecution(t, o, fills, now).Ok? <==>
      && OrderConstraints(t, o) && (forall k :: 0 <= k < |fills| ==> FillConstraints(t, o, fills, k))
      && (o.filledQuantity > 0 && o.averageFillPrice.Some? ==> PositionConstraints(t, o))
  {
    hide FillConstraints, FillInsertable;
    forall k | 0 <= k < |fills|
      ensures FillInsertable(t.orders + [o], t.fills + fills[..k], fills[k]) <==> FillConstraints(t, o, fills, k)
    {
      FillTurn(t, o, fills, k);
    }
  }

  lemma FillTurn(t: Tables, o: Order, fills: seq<Fill>, k: nat)
    requires k < |fills|
    ensures FillInsertable(t.orders + [o], t.fills + fills[..k], fills[k]) <==> FillConstraints(t, o, fills, k)
  {
    var orders, before := t.orders + [o], t.fills + fills[..k];
    assert forall i :: 0 <= i < |t.orders| ==> orders[i] == t.orders[i];
    assert orders[|t.orders|] == o;
    assert forall i :: 0 <= i < |t.fills| ==> before[i] == t.fills[i];
    assert forall i :: 0 <= i < k ==> before[|t.fills| + i] == fills[i];
  }

  // ----- the day's result -----

  /** Days are counted in UTC, 24 hours of 60 minutes of 60 seconds. */
  lemma DayLaw(day: int, hour: int, minute: int, second: int, microsecond: int)
    requires 0 <= hour < 24 && 0 <= minute < 60 && 0 <= second < 60 && 0 <= microsecond < 1_000_000
    ensures DayOf((((day * 24 + hour) * 60 + minute) * 60 + second) * 1_000_000 + microsecond) == day
  {
  }

  /** What a row adds to the result of the day from `start` on. */
  ghost function DayFlow(p: PositionRow, start: int): real {
    match p.state
    case Open => 0.0
    case Closed(at, pnl) => if start <= at < start + 24 * 60 * 60 * 1_000_000 then pnl else 0.0
  }

  ghost function DayTotal(positions: seq<PositionRow>, start: int): real {
    if positions == [] then 0.0 else DayFlow(positions[0], start) + DayTotal(positions[1..], start)
  }

  lemma {:induction false} DayTotalLast(positions: seq<PositionRow>, p: PositionRow, start: int)
    ensures DayTotal(positions + [p], start) == DayTotal(positions, start) + DayFlow(p, start)
  {
    if positions == [] {
      assert [] + [p] == [p] && [p][1..] == [];
    } else {
      DayTotalLast(positions[1..], p, start);
      assert (positions + [p])[1..] == positions[1..] + [p];
    }
  }

  /** The day's result adds up the rows closed between one midnight and the next. */
  lemma {:induction false} DailyLaw(positions: seq<PositionRow>, day: int)
    ensures DailyPnl(positions, day) == DayTotal(positions, day * 24 * 60 * 60 * 1_000_000)
  {
    if positions != [] {
      var n := |positions| - 1;
      DailyLaw(positions[..n], day);
      DayTotalLast(positions[..n], positions[n], day * 24 * 60 * 60 * 1_000_000);
      assert positions == positions[..n] + [positions[n]];
    }
  }

  // ----- the losing run -----

  lemma {:induction false} ClosedRowsMeaning(positions: seq<PositionRow>)
    ensures forall r :: multiset(ClosedRows(positions))[r]
              == if r.rowId < |positions| && positions[r.rowId].state == Closed(r.closedAt, r.pnl) then 1 else 0
  {
    if positions != [] {
      var n := |positions| - 1;
      ClosedRowsMeaning(positions[..n]);
      assert forall k :: 0 <= k < n ==> positions[..n][k] == positions[k];
    }
  }

  lemma RowOrder()
    ensures TotalPreorder(LatestFirst)
  {
  }

  /** Rows with different numbers never tie. */
  lemma NoRowTies(positions: seq<PositionRow>, s: seq<ClosedRow>)
    requires multiset(s) == multiset(ClosedRows(positions))
    ensures NoTies(LatestFirst, s)
  {
    ClosedRowsMeaning(positions);
    forall i, j | 0 <= i < |s| && 0 <= j < |s| && LatestFirst(s[i], s[j]) && LatestFirst(s[j], s[i]) ensures s[i] == s[j] {
      assert s[i] in multiset(s) && s[j] in multiset(s);
      assert multiset(ClosedRows(positions))[s[i]] > 0 && multiset(ClosedRows(positions))[s[j]] > 0;
    }
  }

  /** Row `i` is open, and every closed row was closed before `at`, or at `at` and inserted earlier. */
  ghost predicate ClosesLast(positions: seq<PositionRow>, i: nat, at: int) {
    && i < |positions| && positions[i].state.Open?
    && forall k :: 0 <= k < |positions| && positions[k].state.Closed? ==>
         positions[k].state.closedAt < at || (positions[k].state.closedAt == at && k < i)
  }

  lemma CloseIsFirst(positions: seq<PositionRow>, i: nat, at: int, pnl: real)
    requires ClosesLast(positions, i, at)
    ensures ClosedLatestFirst(positions[i := positions[i].(state := Closed(at, pnl))])
         == [ClosedRow(at, i, pnl)] + ClosedLatestFirst(positions)
  {
    hide Sort, ClosedRows, SortedBy, NoTies;
    var after, row := positions[i := positions[i].(state := Closed(at, pnl))], ClosedRow(at, i, pnl);
    var expected := [row] + ClosedLatestFirst(positions);
    LatestFirstOrder(positions);
    LatestFirstOrder(after);
    ClosedRowsMeaning(positions);
    ClosedRowsMeaning(after);
    forall r ensures multiset(expected)[r] == multiset(ClosedRows(after))[r] {
      assert multiset(expected)[r] == multiset([row])[r] + multiset(ClosedRows(positions))[r];
    }
    HeadSorts(positions, i, row);
    NoRowTies(after, expected);
    RowOrder();
    SortedUnique(LatestFirst, expected, ClosedLatestFirst(after));
  }

  lemma HeadSorts(positions: seq<PositionRow>, i: nat, row: ClosedRow)
    requires ClosesLast(positions, i, row.closedAt) && row.rowId == i
    ensures SortedBy(LatestFirst, [row] + ClosedLatestFirst(positions))
  {
    hide Sort, ClosedRows;
    var rows := ClosedLatestFirst(positions);
    LatestFirstOrder(positions);
    ClosedRowsMeaning(positions);
    forall k | 0 <= k < |rows| ensures LatestFirst(row, rows[k]) {
      assert rows[k] in multiset(rows);
      assert multiset(ClosedRows(positions))[rows[k]] > 0;
    }
  }

  /** A close after all others makes the losing run one longer when it books a loss, and ends it
      otherwise. */
  lemma StreakLaw(t: Tables, i: nat, exitPrice: real, closedAt: int)
    requires exitPrice > 0.0 && ClosesLast(t.positions, i, closedAt)
    requires forall k :: OpenRow(t.positions, k, t.positions[i].positionId) ==> k == i
    ensures ClosePosition(t, t.positions[i].positionId, exitPrice, closedAt).Ok?
    ensures var t' := ClosePosition(t, t.positions[i].positionId, exitPrice, closedAt).value;
      ConsecutiveLosses(t'.positions)
        == if CashIn(t.positions[i], exitPrice) < 0.0 then ConsecutiveLosses(t.positions) + 1 else 0
  {
    hide RealizedPnl, CashIn, ClosedLatestFirst, FindOpen, ClosesLast;
    OpensHere(t.positions, i, closedAt);
    var p := t.positions[i];
    CloseLaw(t, p.positionId, exitPrice, closedAt);
    CloseIsFirst(t.positions, i, closedAt, CashIn(p, exitPrice));
    FirstLoss(ClosedRow(closedAt, i, CashIn(p, exitPrice)), ClosedLatestFirst(t.positions));
  }

  lemma OpensHere(positions: seq<PositionRow>, i: nat, at: int)
    requires ClosesLast(positions, i, at)
    ensures i < |positions| && OpenRow(positions, i, positions[i].positionId)
  {
  }

  lemma FirstLoss(row: ClosedRow, rows: seq<ClosedRow>)
    ensures LosingRun([row] + rows) == if row.pnl < 0.0 then LosingRun(rows) + 1 else 0
  {
    assert ([row] + rows)[1..] == rows;
  }

  // ----- a loss stops the day -----

  /** Rows are added open, and none is closed. */
  ghost predicate OnlyOpens(before: seq<PositionRow>, after: seq<PositionRow>) {
    before <= after && forall i :: |before| <= i < |after| ==> after[i].state.Open?
  }

  lemma {:induction false} SameLosses(before: seq<PositionRow>, after: seq<PositionRow>, day: int)
    requires OnlyOpens(before, after)
    ensures DailyPnl(after, day) == DailyPnl(before, day)
    ensures ClosedRows(after) == ClosedRows(before)
    decreases |after|
  {
    if |before| < |after| {
      var n := |after| - 1;
      SameLosses(before, after[..n], day);
    } else {
      assert before == after;
    }
  }

  lemma StepOpens(digest: string -> string, s: Sys, tid: nat, env: Env)
    requires tid in s.threads
    ensures OnlyOpens(s.tables.positions, StepThread(digest, s, tid, env).tables.positions)
  {
    hide PlanAcceptable, PaperOrder, PaperFills, LiveOrder, LiveFills, DailyPnl, ConsecutiveLosses, AckAcceptable, HasOpen, DayOf,
      RecordSignal, RecordApproval, UpdateSignalState, RecordExecution, ReportedState, OnlyOpens;
    var th, t := s.threads[tid], s.tables;
    SignalWrites(t, th);
    match th.pc
    case PaperExec =>
      ExecutionOpens(t, PaperOrder(env.paper, digest, th.plan, env.now), PaperFills(env.paper, digest, th.plan, env.now), env.now);
    case RecordUnknown => ExecutionOpens(t, LiveOrder(th.plan, UnknownAck(th.plan), env.now), [], env.now);
    case RecordLive(ack) =>
      if AckAcceptable(th.plan, ack) { ExecutionOpens(t, LiveOrder(th.plan, ack, env.now), LiveFills(th.plan, ack, env.now), env.now); }
    case _ =>
  }

  lemma ExecutionOpens(t: Tables, o: Order, fills: seq<Fill>, now: int)
    ensures var r := RecordExecution(t, o, fills, now); r.Ok? ==> OnlyOpens(t.positions, r.value.positions)
  {
    hide OrderInsertable, FillsInsertable, PositionInsertable;
  }

  /** Writing signals and approvals touches no position. */
  lemma SignalWrites(t: Tables, th: Thread)
    ensures OnlyOpens(t.positions, t.positions)
    ensures var r := RecordSignal(t, th.plan, Received); r.Ok? ==> r.value.positions == t.positions
    ensures th.approval.Some? ==>
      var r := RecordApproval(t, th.plan.signalId, th.approval.value); r.Ok? ==> r.value.positions == t.positions
    ensures forall state :: var r := UpdateSignalState(t, th.plan.signalId, state); r.Ok? ==> r.value.positions == t.positions
  {
    hide CorrelationUsed;
  }

  ghost predicate NoClose(actions: seq<Action>) {
    forall i :: 0 <= i < |actions| ==> !actions[i].Close?
  }

  /** Only a close changes what the loss limits look at. */
  lemma {:induction false} LossesStand(digest: string -> string, s: Sys, actions: seq<Action>, day: int)
    requires NoClose(actions)
    ensures var t := Run(digest, s, actions).tables;
      DailyPnl(t.positions, day) == DailyPnl(s.tables.positions, day) && ConsecutiveLosses(t.positions) == ConsecutiveLosses(s.tables.positions)
  {
    hide StepThread, DailyPnl, ClosedRows, Sort, LosingRun;
    if actions != [] {
      var n := |actions| - 1;
      LossesStand(digest, s, actions[..n], day);
      var mid, a := Run(digest, s, actions[..n]), actions[n];
      if a.Advance? && a.tid in mid.threads { StepOpens(digest, mid, a.tid, a.env); }
      SameLosses(mid.tables.positions, Apply(digest, mid, a).tables.positions, day);
    }
  }

  /** From an empty history, closing one long position at a loss of at least the daily limit makes
      every check of that day kill, whatever happens in between short of another close. */
  lemma LossKills(digest: string -> string, s: Sys, id: string, i: nat, exitPrice: real, closedAt: int, policy: Policy,
                  actions: seq<Action>, now: int)
    requires exitPrice > 0.0 && forall k :: 0 <= k < |s.tables.positions| ==> s.tables.positions[k].state.Open?
    requires OpenRow(s.tables.positions, i, id) && forall k :: OpenRow(s.tables.positions, k, id) ==> k == i
    requires s.tables.positions[i].side == Buy
    requires var p := s.tables.positions[i];
      p.averageEntryPrice * (p.quantity as real) - exitPrice * (p.quantity as real) >= policy.maxDailyLoss
    requires NoClose(actions) && SameDay(closedAt, now)
    ensures var closed := Apply(digest, s, Action.Close(id, exitPrice, closedAt));
      Breached(Run(digest, closed, actions).tables, policy, now)
  {
    hide FindOpen, RealizedPnl, DailyPnl, ConsecutiveLosses, Run;
    var closed := Apply(digest, s, Action.Close(id, exitPrice, closedAt));
    CloseLaw(s.tables, id, exitPrice, closedAt);
    var loss := CashIn(s.tables.positions[i], exitPrice);
    LossesStand(digest, closed, actions, DayOf(now));
    DayShared(closedAt, now);
    OneClosed(s.tables.positions, i, closedAt, loss, DayOf(now));
  }

  /** Both instants lie in one stretch of 24 hours from a UTC midnight. */
  ghost predicate SameDay(a: int, b: int) {
    exists day :: Midnight(day) <= a < Midnight(day + 1) && Midnight(day) <= b < Midnight(day + 1)
  }

  ghost function Midnight(day: int): int {
    day * 24 * 60 * 60 * 1_000_000
  }

  lemma DayShared(a: int, b: int)
    requires SameDay(a, b)
    ensures DayOf(a) == DayOf(b)
  {
  }

  lemma OneClosed(positions: seq<PositionRow>, i: nat, at: int, pnl: real, day: int)
    requires i < |positions| && DayOf(at) == day && forall k :: 0 <= k < |positions| ==> positions[k].state.Open?
    ensures DailyPnl(positions[i := positions[i].(state := Closed(at, pnl))], day) == pnl
  {
    hide DayOf;
    var after := positions[i := positions[i].(state := Closed(at, pnl))];
    assert OnlyOpens(after[..i + 1], after);
    SameLosses(after[..i + 1], after, day);
    assert after[..i + 1][..i] == positions[..i];
    assert OnlyOpens([], positions[..i]);
    SameLosses([], positions[..i], day);
  }

  // ----- the paper broker -----

  lemma HalfEven(x: real)
    ensures var n := RoundHalfEven(x);
      && -0.5 <= n as real - x <= 0.5 && ((n as real - x == 0.5 || n as real - x == -0.5) ==> n % 2 == 0)
  {
  }

  /** A whole number of ten-thousandths nearest to `exact`, the even one of two. */
  ghost predicate Ticked(price: real, exact: real) {
    exists n: int :: price == n as real / 10000.0 && NearestTick(n, exact)
  }

  ghost predicate NearestTick(n: int, exact: real) {
    var off := n as real - exact * 10000.0;
    -0.5 <= off <= 0.5 && (off == 0.5 || off == -0.5 ==> n % 2 == 0)
  }

  /** Paper fills are bought above the limit price and sold below it, by the basis points. */
  ghost function Slipped(cfg: PaperConfig, plan: Plan): real {
    match plan.side
    case Buy => plan.limitPrice + plan.limitPrice * cfg.slippageBps / 10000.0
    case Sell => plan.limitPrice - plan.limitPrice * cfg.slippageBps / 10000.0
  }

  lemma PaperPriceLaw(cfg: PaperConfig, plan: Plan)
    ensures Ticked(PaperPrice(cfg, plan), Slipped(cfg, plan))
  {
    hide RoundHalfEven, Ticked;
    SlipTwice(plan.limitPrice, cfg.slippageBps);
    NearestTicked(Slipped(cfg, plan));
  }

  lemma NearestTicked(exact: real)
    ensures Ticked(RoundHalfEven(exact * 10000.0) as real / 10000.0, exact)
  {
    hide RoundHalfEven;
    HalfEven(exact * 10000.0);
    assert NearestTick(RoundHalfEven(exact * 10000.0), exact);
  }

  lemma SlipTwice(price: real, bps: real)
    ensures price * (1.0 + bps / 10000.0) == price + price * bps / 10000.0
    ensures price * (1.0 + -(bps / 10000.0)) == price - price * bps / 10000.0
  {
    assert price * (bps / 10000.0) == price * bps / 10000.0;
  }

  /** What the paper broker returns: the plan's own order, filled to the whole units of the ratio, with
      at most one fill, which is the whole of what was filled; both are complete together. */
  lemma PaperLaw(cfg: PaperConfig, digest: string -> string, plan: Plan, now: int)
    requires cfg.Valid() && plan.quantity > 0
    ensures var o := PaperOrder(cfg, digest, plan, now);
      var fills := PaperFills(cfg, digest, plan, now);
      && MatchesPlan(o, plan) && o.signalId == plan.signalId && o.submittedAt == now
      && 0 <= o.filledQuantity <= plan.quantity
      && (o.state == OrderFilled <==> o.filledQuantity == plan.quantity)
      && (o.state == OrderPartiallyFilled <==> 0 < o.filledQuantity < plan.quantity)
      && (o.state == Acknowledged <==> o.filledQuantity == 0)
      && (o.filledQuantity == 0 ==> o.averageFillPrice.None? && fills == [])
      && (o.filledQuantity > 0 ==> o.averageFillPrice.Some? && Ticked(o.averageFillPrice.value, Slipped(cfg, plan)) && |fills| == 1)
      && forall k :: 0 <= k < |fills| ==>
           && fills[k].orderId == o.orderId && fills[k].quantity == o.filledQuantity && Some(fills[k].price) == o.averageFillPrice
           && (fills[k].complete <==> o.state == OrderFilled) && fills[k].filledAt == now
    ensures ReportedState(PaperOrder(cfg, digest, plan, now)) == ExecutedState(PaperOrder(cfg, digest, plan, now))
  {
    hide PaperQuantity, PaperPrice, Ticked, Slipped;
    PaperQuantityMeaning(cfg, plan.quantity);
    PaperPriceLaw(cfg, plan);
  }

  // ----- live acknowledgements -----

  /** An acceptable acknowledgement is for this order and reports a part of it, with a price exactly
      when that part is not nothing; everything else is refused. */
  lemma AckLaw(plan: Plan, ack: Ack)
    ensures AckAcceptable(plan, ack) <==>
      && ack.correlationId == plan.correlationId
      && (match ack.averageFillPrice
          case None => ack.filledQuantity == 0 && plan.quantity >= 0
          case Some(price) => 1 <= ack.filledQuantity <= plan.quantity && price > 0.0)
  {
  }

  /** No row of `t` is in the way of the order. */
  ghost predicate Free(t: Tables, o: Order, fills: seq<Fill>) {
    && (forall i :: 0 <= i < |t.orders| ==>
          t.orders[i].orderId != o.orderId && t.orders[i].correlationId != o.correlationId && t.orders[i].signalId != o.signalId)
    && (forall i, k :: 0 <= i < |t.fills| && 0 <= k < |fills| ==> t.fills[i].fillId != fills[k].fillId)
    && (forall i :: 0 <= i < |t.positions| ==>
          && t.positions[i].positionId != "position-" + o.orderId && t.positions[i].signalId != o.signalId
          && (t.positions[i].state.Open? ==> t.positions[i].securityId != o.securityId))
  }

  /** The ledger takes an acceptable acknowledgement of a recorded plan whenever no row is in the way,
      and then the order, the fill and the position all show what the acknowledgement reports. */
  lemma LiveLaw(t: Tables, plan: Plan, ack: Ack, now: int)
    requires plan.signalId in t.signals && Tradable(plan) && AckAcceptable(plan, ack)
    requires Free(t, LiveOrder(plan, ack, now), LiveFills(plan, ack, now))
    ensures var r := RecordExecution(t, LiveOrder(plan, ack, now), LiveFills(plan, ack, now), now);
      && r.Ok?
      && |r.value.orders| == |t.orders| + 1
      && (var o := r.value.orders[|t.orders|];
          && MatchesPlan(o, plan) && o.orderId == ack.brokerOrderId && o.filledQuantity == ack.filledQuantity
          && o.averageFillPrice == ack.averageFillPrice && o.state == ack.state && o.submittedAt == now)
      && (if ack.filledQuantity == 0 then r.value.fills == t.fills && r.value.positions == t.positions
          else
            && |r.value.fills| == |t.fills| + 1 && |r.value.positions| == |t.positions| + 1
            && var f, p := r.value.fills[|t.fills|], r.value.positions[|t.positions|];
            && f.orderId == ack.brokerOrderId && f.quantity == ack.filledQuantity && Some(f.price) == ack.averageFillPrice
            && (f.complete <==> ack.filledQuantity == plan.quantity)
            && p.side == plan.side && p.securityId == plan.securityId && p.quantity == ack.filledQuantity
            && Some(p.averageEntryPrice) == ack.averageFillPrice && p.state == Open && p.openedAt == now)
  {
    var o, fills := LiveOrder(plan, ack, now), LiveFills(plan, ack, now);
    if fills != [] {
      assert (t.orders + [o])[|t.orders|].orderId == fills[0].orderId;
      assert t.fills + fills[..0] == t.fills;
    }
  }

  /** What the caller is told agrees with the ledger exactly when the broker's order state agrees with
      its fill. */
  lemma ReportedAgrees(o: Order)
    requires o.quantity > 0 && 0 <= o.filledQuantity <= o.quantity
    ensures ReportedState(o) == ExecutedState(o) <==>
      && (o.state == OrderFilled <==> o.filledQuantity == o.quantity)
      && (o.state == OrderPartiallyFilled <==> 0 < o.filledQuantity < o.quantity)
  {
  }

  /** A broker may acknowledge an order as filled in full without calling it filled: the ledger says
      filled, the caller is told submitted. */
  lemma ReportCanDiffer(plan: Plan, now: int)
    requires plan.quantity > 0
    ensures var ack := Ack("b", plan.correlationId, Acknowledged, plan.quantity, Some(1.0));
      && AckAcceptable(plan, ack)
      && ExecutedState(LiveOrder(plan, ack, now)) == Filled && ReportedState(LiveOrder(plan, ack, now)) == Submitted
  {
  }

  // ----- the gates -----

  /** What a plan must be, whatever the time. */
  ghost predicate Sound(policy: Policy, registry: map<string, string>, plan: Plan) {
    && "" !in {plan.signalId, plan.correlationId, plan.symbol, plan.securityId, plan.strategyVersion}
    && (plan.symbol, plan.securityId) in registry.Items
    && 1 <= plan.quantity <= policy.maxOrderQuantity && plan.limitPrice > 0.0
    && plan.limitPrice * (plan.quantity as real) <= policy.maxOrderNotional
    && plan.maximumLoss > 0.0 && plan.maximumLoss <= policy.maxPlanLoss
    && plan.eventRiskActive.Some? && !plan.eventRiskActive.value && plan.expiryRiskClear
  }

  /** The first instant at which neither the data nor the signal is too far in the future. */
  ghost function Opens(policy: Policy, plan: Plan): int {
    (if plan.dataTime > plan.signalTime then plan.dataTime else plan.signalTime) - policy.futureClockSkew
  }

  /** The first instant at which the data is stale, the plan has run out or the contract is too close
      to its expiry. */
  ghost function Shuts(policy: Policy, plan: Plan): int {
    Min(plan.dataTime + policy.maxDataAge + 1, Min(plan.validUntil, plan.contractExpiry - policy.minExpiryBuffer))
  }

  ghost function Min(a: int, b: int): int {
    if a < b then a else b
  }

  /** A sound plan is acceptable in one stretch of time. */
  lemma AcceptableWindow(policy: Policy, registry: map<string, string>, plan: Plan, now: int)
    ensures PlanAcceptable(policy, registry, plan, now)
       <==> Sound(policy, registry, plan) && Opens(policy, plan) <= now < Shuts(policy, plan)
  {
    if plan.symbol in registry { assert (plan.symbol, registry[plan.symbol]) in registry.Items; }
  }

  /** The controller objects to a plan exactly outside that stretch, or while its security is held. */
  lemma ObjectionLaw(t: Tables, policy: Policy, registry: map<string, string>, plan: Plan, now: int)
    ensures Objectionable(t, policy, registry, plan, now) <==>
      || !Sound(policy, registry, plan) || now < Opens(policy, plan) || Shuts(policy, plan) <= now
      || exists i :: 0 <= i < |t.positions| && t.positions[i].state.Open? && t.positions[i].securityId == plan.securityId
  {
    hide PlanAcceptable, Sound, Opens, Shuts;
    AcceptableWindow(policy, registry, plan, now);
  }

  /** At step `k` of the run some call of this plan passed every gate. */
  ghost predicate PassedAt(digest: string -> string, actions: seq<Action>, k: nat, plan: Plan, approving: bool) {
    && k < |actions| && actions[k].Advance?
    && var s, tid, env := Run(digest, IDLE, actions[..k]), actions[k].tid, actions[k].env;
    && tid in s.threads && s.threads[tid].pc == CheckPosition && s.threads[tid].plan == plan
    && (approving <==> s.threads[tid].approval.Some?)
    && Sound(s.threads[tid].policy, env.registry, plan)
    && Opens(s.threads[tid].policy, plan) <= env.now < Shuts(s.threads[tid].policy, plan)
    && forall i :: 0 <= i < |s.tables.positions| && s.tables.positions[i].state.Open? ==> s.tables.positions[i].securityId != plan.securityId
  }

  ghost predicate Passed(digest: string -> string, actions: seq<Action>, plan: Plan, approving: bool) {
    exists k: nat :: PassedAt(digest, actions, k, plan, approving)
  }

  lemma PassedStays(digest: string -> string, actions: seq<Action>, a: Action, plan: Plan, approving: bool)
    requires Passed(digest, actions, plan, approving)
    ensures Passed(digest, actions + [a], plan, approving)
  {
    hide Run, Sound, Opens, Shuts;
    var k: nat :| PassedAt(digest, actions, k, plan, approving);
    assert (actions + [a])[..k] == actions[..k];
    assert PassedAt(digest, actions + [a], k, plan, approving);
  }

  /** Past the gates, and not turned away. */
  predicate Past(pc: Pc) {
    pc.Record? || Active(pc)
  }

  ghost predicate GatesInv(digest: string -> string, actions: seq<Action>) {
    var s := Run(digest, IDLE, actions);
    && (forall tid :: tid in s.threads && Past(s.threads[tid].pc) ==>
          Passed(digest, actions, s.threads[tid].plan, s.threads[tid].approval.Some?))
    && (forall id :: id in s.tables.signals ==> Passed(digest, actions, s.tables.signals[id].plan, false))
    && (forall id :: id in s.tables.approvals ==>
          id in s.tables.signals && Passed(digest, actions, s.tables.signals[id].plan, true))
  }

  /** A step is taken by one call alone. */
  ghost predicate Alone(s: Sys, s': Sys, tid: nat) {
    && tid in s.threads && s'.threads.Keys == s.threads.Keys
    && forall u :: u in s.threads && u != tid ==> s'.threads[u] == s.threads[u]
  }

  lemma StepAlone(digest: string -> string, s: Sys, tid: nat, env: Env)
    requires tid in s.threads
    ensures Alone(s, StepThread(digest, s, tid, env), tid)
  {
    hide PlanAcceptable, PaperOrder, PaperFills, LiveOrder, LiveFills, DailyPnl, ConsecutiveLosses, AckAcceptable, HasOpen, DayOf,
      RecordSignal, RecordApproval, UpdateSignalState, RecordExecution, ReportedState;
  }

  /** A call gets past the gates only through them. */
  lemma StepGates(digest: string -> string, s: Sys, tid: nat, env: Env)
    requires tid in s.threads && Past(StepThread(digest, s, tid, env).threads[tid].pc)
    ensures var th, th' := s.threads[tid], StepThread(digest, s, tid, env).threads[tid];
      && th'.plan == th.plan && th'.approval == th.approval
      && (Past(th.pc) || (th.pc == CheckPosition && PlanAcceptable(th.policy, env.registry, th.plan, env.now)
                          && !HasOpen(s.tables, th.plan.securityId)))
  {
    hide PlanAcceptable, PaperOrder, PaperFills, LiveOrder, LiveFills, DailyPnl, ConsecutiveLosses, AckAcceptable, HasOpen, DayOf,
      RecordSignal, RecordApproval, UpdateSignalState, RecordExecution, ReportedState;
  }

  /** Rows that a call at this point may add: its signal, or an approval of a recorded signal. */
  ghost predicate Adds(t: Tables, t': Tables, th: Thread) {
    && (forall id :: id in t.signals ==> id in t'.signals && t'.signals[id].plan == t.signals[id].plan)
    && (forall id :: id in t'.signals && id !in t.signals ==>
          th.pc == Record && th.approval.None? && t'.signals[id].plan == th.plan)
    && (forall id :: id in t'.approvals && id !in t.approvals ==>
          th.pc == Record && th.approval.Some? && id == th.plan.signalId && id in t.signals)
  }

  lemma RecordAdds(t: Tables, th: Thread)
    requires th.pc == Record
    ensures th.approval.None? ==> var r := RecordSignal(t, th.plan, Received); r.Ok? ==> Adds(t, r.value, th)
    ensures th.approval.Some? ==> var r := RecordApproval(t, th.plan.signalId, th.approval.value); r.Ok? ==> Adds(t, r.value, th)
  {
    hide CorrelationUsed;
  }

  lemma UpdateAdds(t: Tables, th: Thread, id: string, state: SignalState)
    ensures var r := UpdateSignalState(t, id, state); r.Ok? ==> Adds(t, r.value, th)
  {
  }

  lemma ExecutionAdds(t: Tables, th: Thread, o: Order, fills: seq<Fill>, now: int)
    ensures var r := RecordExecution(t, o, fills, now); r.Ok? ==> Adds(t, r.value, th)
  {
    hide FillsInsertable, PositionInsertable, OpensPosition, PositionOf, ExecutedState;
  }

  lemma StepAdds(digest: string -> string, s: Sys, tid: nat, env: Env)
    requires tid in s.threads
    ensures Adds(s.tables, StepThread(digest, s, tid, env).tables, s.threads[tid])
  {
    hide PlanAcceptable, PaperOrder, PaperFills, LiveOrder, LiveFills, DailyPnl, ConsecutiveLosses, AckAcceptable, HasOpen, DayOf,
      RecordSignal, RecordApproval, UpdateSignalState, RecordExecution, ReportedState, Adds;
    var th, t := s.threads[tid], s.tables;
    SameAdds(t, th);
    match th.pc
    case Record => RecordAdds(t, th);
    case MarkBlocked => UpdateAdds(t, th, th.plan.signalId, Blocked);
    case MarkAwaiting => UpdateAdds(t, th, th.plan.signalId, AwaitingApproval);
    case MarkUncertain => UpdateAdds(t, th, th.plan.signalId, Uncertain);
    case PaperExec =>
      ExecutionAdds(t, th, PaperOrder(env.paper, digest, th.plan, env.now), PaperFills(env.paper, digest, th.plan, env.now), env.now);
    case RecordUnknown => ExecutionAdds(t, th, LiveOrder(th.plan, UnknownAck(th.plan), env.now), [], env.now);
    case RecordLive(ack) =>
      if AckAcceptable(th.plan, ack) { ExecutionAdds(t, th, LiveOrder(th.plan, ack, env.now), LiveFills(th.plan, ack, env.now), env.now); }
    case _ =>
  }

  lemma SameAdds(t: Tables, th: Thread)
    ensures Adds(t, t, th) && Adds(t, t.(killSwitch := true), th)
  {
  }

  lemma PassesNow(digest: string -> string, actions: seq<Action>, a: Action)
    requires a.Advance?
    requires var s := Run(digest, IDLE, actions);
      && a.tid in s.threads && s.threads[a.tid].pc == CheckPosition
      && PlanAcceptable(s.threads[a.tid].policy, a.env.registry, s.threads[a.tid].plan, a.env.now)
      && !HasOpen(s.tables, s.threads[a.tid].plan.securityId)
    ensures var th := Run(digest, IDLE, actions).threads[a.tid]; Passed(digest, actions + [a], th.plan, th.approval.Some?)
  {
    hide Run, Sound, Opens, Shuts, PlanAcceptable;
    var th := Run(digest, IDLE, actions).threads[a.tid];
    AcceptableWindow(th.policy, a.env.registry, th.plan, a.env.now);
    assert (actions + [a])[..|actions|] == actions && (actions + [a])[|actions|] == a;
    assert PassedAt(digest, actions + [a], |actions|, th.plan, th.approval.Some?);
  }

  lemma RunLast(digest: string -> string, actions: seq<Action>, a: Action)
    ensures Run(digest, IDLE, actions + [a]) == Apply(digest, Run(digest, IDLE, actions), a)
  {
    hide Apply;
    assert (actions + [a])[..|actions|] == actions;
  }

  lemma AdvanceGates(digest: string -> string, actions: seq<Action>, a: Action)
    requires GatesInv(digest, actions) && a.Advance? && a.tid in Run(digest, IDLE, actions).threads
    ensures GatesInv(digest, actions + [a])
  {
    hide Run, StepThread, Passed, PlanAcceptable, HasOpen, Past;
    var s := Run(digest, IDLE, actions);
    var s' := StepThread(digest, s, a.tid, a.env);
    RunLast(digest, actions, a);
    StepAlone(digest, s, a.tid, a.env);
    StepAdds(digest, s, a.tid, a.env);
    forall tid | tid in s'.threads && Past(s'.threads[tid].pc)
      ensures Passed(digest, actions + [a], s'.threads[tid].plan, s'.threads[tid].approval.Some?)
    {
      if tid == a.tid { StepGates(digest, s, tid, a.env); }
      if Past(s.threads[tid].pc) {
        PassedStays(digest, actions, a, s.threads[tid].plan, s.threads[tid].approval.Some?);
      } else {
        PassesNow(digest, actions, a);
      }
    }
    forall id | id in s'.tables.signals ensures Passed(digest, actions + [a], s'.tables.signals[id].plan, false) {
      if id !in s.tables.signals { RecordIsPast(s.threads[a.tid]); }
      PassedStays(digest, actions, a, s'.tables.signals[id].plan, false);
    }
    forall id | id in s'.tables.approvals
      ensures id in s'.tables.signals && Passed(digest, actions + [a], s'.tables.signals[id].plan, true)
    {
      if id !in s.tables.approvals {
        RecordIsPast(s.threads[a.tid]);
        EveryRunSafe(digest, actions);
        ApprovedPlan(s, a.tid);
      }
      PassedStays(digest, actions, a, s'.tables.signals[id].plan, true);
    }
  }

  /** The plan that an approving call is about to record is the one on record. */
  lemma ApprovedPlan(s: Sys, tid: nat)
    requires Inv(s) && tid in s.threads && s.threads[tid].pc == Record && s.threads[tid].approval.Some?
    ensures var plan := s.threads[tid].plan; plan.signalId in s.tables.signals && s.tables.signals[plan.signalId].plan == plan
  {
    hide TablesInv, SentInv, ThreadOk;
    RecordFact(s.tables, s.sent, s.threads[tid]);
  }

  lemma RecordIsPast(th: Thread)
    ensures th.pc == Record ==> Past(th.pc)
  {
  }

  lemma OtherGates(digest: string -> string, actions: seq<Action>, a: Action)
    requires GatesInv(digest, actions) && !(a.Advance? && a.tid in Run(digest, IDLE, actions).threads)
    ensures GatesInv(digest, actions + [a])
  {
    hide Run, Passed, StepThread, ClosePosition, Past;
    var s := Run(digest, IDLE, actions);
    RunLast(digest, actions, a);
    var s' := Apply(digest, s, a);
    forall plan, approving | Passed(digest, actions, plan, approving) ensures Passed(digest, actions + [a], plan, approving) {
      PassedStays(digest, actions, a, plan, approving);
    }
    if a.Start? && Starting(a.thread) { StartsBefore(a.thread); }
    if a.Close? && ClosePosition(s.tables, a.positionId, a.exitPrice, a.closedAt).Ok? { CloseLaw(s.tables, a.positionId, a.exitPrice, a.closedAt); }
  }

  lemma StartsBefore(th: Thread)
    requires Starting(th)
    ensures !Past(th.pc)
  {
  }

  /** Every signal on record, at any point of any run, once passed every gate in a call that submitted
      it, and every approval on record stands for a second passage; so did every call that may still
      write or send. */
  lemma {:induction false} EverythingPassed(digest: string -> string, actions: seq<Action>)
    ensures GatesInv(digest, actions)
  {
    hide Run, GatesInv;
    if actions == [] {
      NothingToPass(digest);
    } else {
      var n := |actions| - 1;
      EverythingPassed(digest, actions[..n]);
      assert actions == actions[..n] + [actions[n]];
      if actions[n].Advance? && actions[n].tid in Run(digest, IDLE, actions[..n]).threads {
        AdvanceGates(digest, actions[..n], actions[n]);
      } else {
        OtherGates(digest, actions[..n], actions[n]);
      }
    }
  }

  lemma NothingToPass(digest: string -> string)
    ensures GatesInv(digest, [])
  {
  }

  // ----- modes -----

  /** Where a call may stand in each mode: only paper trading and approvals reach the paper broker, and
      only unlocked live trading reaches the live one. */
  predicate InMode(th: Thread) {
    match th.pc
    case MarkAwaiting => th.approval.None? && th.policy.mode == ManualApproval
    case PaperExec => if th.approval.Some? then th.policy.mode == ManualApproval else th.policy.mode == PaperTrading
    case LiveSend => th.approval.None? && th.policy.mode == LiveAutomatic && th.policy.liveEnabled && th.policy.liveGateway
    case LiveLookup => th.approval.None? && th.policy.mode == LiveAutomatic && th.policy.liveEnabled && th.policy.liveGateway
    case MarkBlocked => th.approval.None? && th.policy.mode != PaperTrading && th.policy.mode != ManualApproval
    case Branch => th.approval.None?
    case _ => th.approval.Some? ==> th.policy.mode == ManualApproval
  }

  /** The correlation id belongs to a call for which live trading was unlocked. */
  ghost predicate SentLive(s: Sys, c: string) {
    exists tid :: tid in s.threads && s.threads[tid].plan.correlationId == c && s.threads[tid].approval.None?
      && s.threads[tid].policy.mode == LiveAutomatic && s.threads[tid].policy.liveEnabled && s.threads[tid].policy.liveGateway
  }

  ghost predicate ModesInv(s: Sys) {
    && (forall tid :: tid in s.threads ==> InMode(s.threads[tid]))
    && (forall i :: 0 <= i < |s.sent| ==> SentLive(s, s.sent[i]))
  }

  lemma StepMode(digest: string -> string, s: Sys, tid: nat, env: Env)
    requires tid in s.threads && InMode(s.threads[tid])
    ensures var th, th' := s.threads[tid], StepThread(digest, s, tid, env).threads[tid];
      && InMode(th') && th'.policy == th.policy && th'.approval == th.approval
      && (th'.plan == th.plan || th.pc == ReadPlan)
  {
    hide PlanAcceptable, PaperOrder, PaperFills, LiveOrder, LiveFills, RecordExecution, RecordSignal, RecordApproval,
      UpdateSignalState, DailyPnl, ConsecutiveLosses, AckAcceptable, HasOpen, DayOf, ReportedState;
  }

  lemma StepSendsOne(digest: string -> string, s: Sys, tid: nat, env: Env)
    requires tid in s.threads
    ensures StepThread(digest, s, tid, env).sent == s.sent + if s.threads[tid].pc == LiveSend then [s.threads[tid].plan.correlationId] else []
  {
    hide PlanAcceptable, PaperOrder, PaperFills, LiveOrder, LiveFills, RecordExecution, RecordSignal, RecordApproval,
      UpdateSignalState, DailyPnl, ConsecutiveLosses, AckAcceptable, HasOpen, DayOf, ReportedState;
  }

  lemma AdvanceModes(digest: string -> string, s: Sys, tid: nat, env: Env)
    requires Inv(s) && ModesInv(s) && tid in s.threads
    ensures ModesInv(StepThread(digest, s, tid, env))
  {
    hide StepThread, InMode, TablesInv, SentInv;
    var s', th := StepThread(digest, s, tid, env), s.threads[tid];
    StepMode(digest, s, tid, env);
    StepAlone(digest, s, tid, env);
    StepSendsOne(digest, s, tid, env);
    if th.pc == ReadPlan { PlanReader(s, tid); }
    forall i | 0 <= i < |s'.sent| ensures SentLive(s', s'.sent[i]) {
      if i < |s.sent| {
        assert SentLive(s, s.sent[i]);
        var u :| u in s.threads && s.threads[u].plan.correlationId == s.sent[i] && s.threads[u].approval.None?
          && s.threads[u].policy.mode == LiveAutomatic && s.threads[u].policy.liveEnabled && s.threads[u].policy.liveGateway;
        assert s'.threads[u].plan.correlationId == s'.sent[i] && s'.threads[u].approval.None?;
      } else {
        LiveSender(th);
        assert s'.threads[tid].plan.correlationId == s'.sent[i] && s'.threads[tid].approval.None?;
      }
    }
  }

  lemma PlanReader(s: Sys, tid: nat)
    requires Inv(s) && tid in s.threads && s.threads[tid].pc == ReadPlan
    ensures s.threads[tid].approval.Some?
  {
    hide TablesInv, SentInv;
    assert ThreadOk(s.tables, s.sent, s.threads[tid]);
  }

  lemma LiveSender(th: Thread)
    requires InMode(th) && th.pc == LiveSend
    ensures th.approval.None? && th.policy.mode == LiveAutomatic && th.policy.liveEnabled && th.policy.liveGateway
  {
  }

  lemma StartModes(s: Sys, tid: nat, th: Thread)
    requires ModesInv(s) && tid !in s.threads && Starting(th)
    ensures ModesInv(Put(s, tid, th))
  {
    hide InMode;
    assert InMode(th) by { StartsInMode(th); }
    var s' := Put(s, tid, th);
    forall i | 0 <= i < |s'.sent| ensures SentLive(s', s'.sent[i]) {
      assert SentLive(s, s.sent[i]);
      var u :| u in s.threads && s.threads[u].plan.correlationId == s.sent[i] && s.threads[u].approval.None?
        && s.threads[u].policy.mode == LiveAutomatic && s.threads[u].policy.liveEnabled && s.threads[u].policy.liveGateway;
      assert s'.threads[u] == s.threads[u];
    }
  }

  lemma StartsInMode(th: Thread)
    requires Starting(th)
    ensures InMode(th)
  {
  }

  /** In every run each order sent belongs to a call for which live trading was unlocked, and no call
      reaches a broker that its mode does not name. */
  lemma {:induction false} ModesHold(digest: string -> string, actions: seq<Action>)
    ensures ModesInv(Run(digest, IDLE, actions))
  {
    hide StepThread, ModesInv, Inv, ClosePosition;
    if actions == [] {
      NoModes();
    } else {
      var n := |actions| - 1;
      ModesHold(digest, actions[..n]);
      EveryRunSafe(digest, actions[..n]);
      var s, a := Run(digest, IDLE, actions[..n]), actions[n];
      match a
      case Start(tid, th) => if tid !in s.threads && Starting(th) { StartModes(s, tid, th); }
      case Advance(tid, env) => if tid in s.threads { AdvanceModes(digest, s, tid, env); }
      case _ => SameModes(s, Apply(digest, s, a));
    }
  }

  lemma NoModes()
    ensures ModesInv(IDLE)
  {
  }

  lemma SameModes(s: Sys, s': Sys)
    requires ModesInv(s) && s'.threads == s.threads && s'.sent == s.sent
    ensures ModesInv(s')
  {
  }

  // ----- approvals -----

  /** A call's own steps decide as the controller does: which mode reaches the live broker, and which
      approvals go on to the kill checks. */
  lemma StepsAgree(digest: string -> string, s: Sys, tid: nat, env: Env)
    requires tid in s.threads
    ensures s.threads[tid].pc == Branch ==>
      (StepThread(digest, s, tid, env).threads[tid].pc == LiveSend <==> LiveUnlocked(s.threads[tid].policy))
    ensures s.threads[tid].pc == ReadPlan && Starting(s.threads[tid]) && s.threads[tid].approval.Some? ==>
      var th, s' := s.threads[tid], StepThread(digest, s, tid, env);
      (s'.threads[tid].pc == ReadState && StepThread(digest, s', tid, env).threads[tid].pc == ReadKill)
        <==> Approvable(s.tables, th.policy, th.signalId, th.approval.value, env.now)
  {
  }

  /** An approval is fitting when the signal waits for one and it names who and why, at an instant from
      the signal's own up to the present, give or take the allowed skew. */
  lemma ApprovalWindow(t: Tables, policy: Policy, id: string, approval: Approval, now: int)
    ensures Approvable(t, policy, id, approval, now) <==>
      && policy.mode.ManualApproval? && |approval.actor| > 0 && |approval.reason| > 0
      && id in t.signals && t.signals[id].state.AwaitingApproval?
      && t.signals[id].plan.signalTime <= approval.approvedAt <= now + policy.futureClockSkew
  {
  }
}
