/** Pre-trade gates and the paper broker, and the controller called by one thread at a time. */
module ExecutionController {
  import opened Outcomes
  import opened ExecutionModels
  import opened ExecutionLedger
  import opened ExecutionSafety

  datatype Policy = Policy(
    mode: Mode, maxDataAge: int, futureClockSkew: int, minExpiryBuffer: int, maxOrderQuantity: int,
    maxOrderNotional: real, maxPlanLoss: real, maxDailyLoss: real, maxConsecutiveLosses: int,
    liveEnabled: bool, liveGateway: bool)
  {
    predicate Valid() {
      && maxDataAge >= 0 && futureClockSkew >= 0 && minExpiryBuffer >= 0
      && maxOrderQuantity > 0 && maxConsecutiveLosses > 0
      && maxOrderNotional > 0.0 && maxPlanLoss > 0.0 && maxDailyLoss > 0.0
    }
  }

  /** Every check of a plan that does not ask the ledger. */
  predicate PlanAcceptable(policy: Policy, registry: map<string, string>, plan: Plan, now: int) {
    && plan.signalId != "" && plan.correlationId != "" && plan.symbol != "" && plan.securityId != ""
    && plan.strategyVersion != ""
    && plan.symbol in registry && registry[plan.symbol] == plan.securityId
    && 0 < plan.quantity <= policy.maxOrderQuantity
    && plan.limitPrice > 0.0
    && 0.0 < plan.maximumLoss <= policy.maxPlanLoss
    && plan.limitPrice * (plan.quantity as real) <= policy.maxOrderNotional
    && -policy.futureClockSkew <= now - plan.dataTime <= policy.maxDataAge
    && plan.signalTime - now <= policy.futureClockSkew
    && now < plan.validUntil
    && plan.eventRiskActive == Some(false) && plan.expiryRiskClear
    && plan.contractExpiry - now > policy.minExpiryBuffer
  }

  lemma AcceptableTradable(policy: Policy, registry: map<string, string>, plan: Plan, now: int)
    ensures PlanAcceptable(policy, registry, plan, now) ==> Tradable(plan)
  {
  }

  /** Why new orders must stop: the switch, the day's loss, or a run of losses. */
  predicate Breached(t: Tables, policy: Policy, now: int) {
    || t.killSwitch
    || DailyPnl(t.positions, DayOf(now)) <= -policy.maxDailyLoss
    || ConsecutiveLosses(t.positions) >= policy.maxConsecutiveLosses
  }

  // ----- the paper broker -----

  datatype PaperConfig = PaperConfig(slippageBps: real, partialFillRatio: real) {
    predicate Valid() {
      0.0 <= slippageBps < 10000.0 && 0.0 <= partialFillRatio <= 1.0
    }
  }

  /** Round half to even, as decimal quantization does. */
  function RoundHalfEven(x: real): int {
    var f := x.Floor;
    var d := x - f as real;
    if d < 0.5 then f else if d > 0.5 then f + 1 else if f % 2 == 0 then f else f + 1
  }

  /** The exact share of an order that the configured ratio fills. */
  function Part(quantity: int, ratio: real): real {
    quantity as real * ratio
  }

  function PaperQuantity(cfg: PaperConfig, quantity: int): int {
    var floor := Part(quantity, cfg.partialFillRatio).Floor;
    var filled := if cfg.partialFillRatio > 0.0 && floor == 0 then 1 else floor;
    if quantity < filled then quantity else filled
  }

  function PaperPrice(cfg: PaperConfig, plan: Plan): real {
    var slip := cfg.slippageBps / 10000.0;
    var multiplier := 1.0 + (if plan.side == Buy then slip else -slip);
    RoundHalfEven(plan.limitPrice * multiplier * 10000.0) as real / 10000.0
  }

  function PaperOrder(cfg: PaperConfig, digest: string -> string, plan: Plan, now: int): Order {
    var filled := PaperQuantity(cfg, plan.quantity);
    Order("paper-order-" + digest(plan.correlationId), plan.correlationId, plan.signalId, plan.symbol,
          plan.securityId, plan.side, plan.quantity, filled, plan.limitPrice,
          if filled != 0 then Some(PaperPrice(cfg, plan)) else None,
          if filled == plan.quantity then OrderFilled else if filled > 0 then OrderPartiallyFilled else Acknowledged,
          now)
  }

  function PaperFills(cfg: PaperConfig, digest: string -> string, plan: Plan, now: int): seq<Fill> {
    var filled := PaperQuantity(cfg, plan.quantity);
    if filled == 0 then []
    else [Fill("paper-fill-" + digest(plan.correlationId) + "-1", "paper-order-" + digest(plan.correlationId),
               filled, PaperPrice(cfg, plan), filled == plan.quantity, now)]
  }

  /** A paper fill is the whole-unit share of the order, at least one unit for any positive
      ratio, and everything exactly when the ratio is one, or positive for a single unit. */
  lemma PaperQuantityMeaning(cfg: PaperConfig, quantity: int)
    requires cfg.Valid() && quantity > 0
    ensures var q := PaperQuantity(cfg, quantity);
      && 0 <= q <= quantity
      && (q == 0 <==> cfg.partialFillRatio == 0.0)
      && (q > 1 ==> q as real <= quantity as real * cfg.partialFillRatio)
      && quantity as real * cfg.partialFillRatio < (q + 1) as real
      && (q == quantity <==> cfg.partialFillRatio == 1.0 || (quantity == 1 && cfg.partialFillRatio > 0.0))
  {
    hide PaperQuantity;
    PaperUnits(cfg, quantity);
  }

  lemma PaperUnits(cfg: PaperConfig, quantity: int)
    requires cfg.Valid() && quantity > 0
    ensures var q, exact := PaperQuantity(cfg, quantity), Part(quantity, cfg.partialFillRatio);
      && 0 <= q <= quantity && exact < (q + 1) as real
      && (q == 0 <==> cfg.partialFillRatio == 0.0)
      && (q > 1 ==> q as real <= exact)
      && (q == quantity <==> cfg.partialFillRatio == 1.0 || (quantity == 1 && cfg.partialFillRatio > 0.0))
  {
    hide Part;
    Scale(quantity, cfg.partialFillRatio);
    WholeUnits(Part(quantity, cfg.partialFillRatio), quantity);
  }

  /** The whole units in a share of an order. */
  lemma WholeUnits(exact: real, quantity: int)
    requires 0.0 <= exact <= quantity as real
    ensures 0 <= exact.Floor <= quantity && exact.Floor as real <= exact < (exact.Floor + 1) as real
    ensures exact < quantity as real ==> exact.Floor < quantity
    ensures exact == quantity as real ==> exact.Floor == quantity
  {
  }

  lemma Scale(quantity: int, ratio: real)
    requires quantity > 0 && 0.0 <= ratio <= 1.0
    ensures 0.0 <= Part(quantity, ratio) <= quantity as real
    ensures ratio < 1.0 ==> Part(quantity, ratio) < quantity as real
    ensures ratio > 0.0 ==> Part(quantity, ratio) > 0.0
    ensures ratio == 1.0 ==> Part(quantity, ratio) == quantity as real
    ensures ratio == 0.0 ==> Part(quantity, ratio) == 0.0
  {
    var size := quantity as real;
    if ratio < 1.0 { Positive(size, 1.0 - ratio); }
    if ratio > 0.0 { Positive(size, ratio); }
    assert size * (1.0 - ratio) == size - size * ratio;
  }

  lemma Positive(x: real, y: real)
    requires x > 0.0 && y > 0.0
    ensures x * y > 0.0
  {
  }

  lemma SingleFill(f: Fill)
    ensures SumFills([f], f.orderId) == f.quantity
  {
    assert [f][..0] == [];
  }

  lemma PaperCoherent(cfg: PaperConfig, digest: string -> string, t: Tables, plan: Plan, now: int)
    requires plan.signalId in t.signals && t.signals[plan.signalId].plan == plan
    ensures Coherent(t, PaperOrder(cfg, digest, plan, now), PaperFills(cfg, digest, plan, now))
  {
    hide PaperQuantity, PaperPrice;
    var fills := PaperFills(cfg, digest, plan, now);
    if fills != [] { SingleFill(fills[0]); }
  }

  // ----- live orders -----

  datatype Ack = Ack(brokerOrderId: string, correlationId: string, state: OrderState, filledQuantity: int,
                     averageFillPrice: Option<real>)

  predicate AckAcceptable(plan: Plan, ack: Ack) {
    && ack.correlationId == plan.correlationId
    && 0 <= ack.filledQuantity <= plan.quantity
    && (ack.filledQuantity > 0 ==> ack.averageFillPrice.Some? && ack.averageFillPrice.value > 0.0)
    && (ack.filledQuantity == 0 ==> ack.averageFillPrice.None?)
  }

  function LiveOrder(plan: Plan, ack: Ack, now: int): Order {
    Order(ack.brokerOrderId, plan.correlationId, plan.signalId, plan.symbol, plan.securityId, plan.side,
          plan.quantity, ack.filledQuantity, plan.limitPrice, ack.averageFillPrice, ack.state, now)
  }

  function LiveFills(plan: Plan, ack: Ack, now: int): seq<Fill>
    requires AckAcceptable(plan, ack)
  {
    if ack.filledQuantity == 0 then []
    else [Fill("live-fill-" + ack.brokerOrderId + "-reconciled", ack.brokerOrderId, ack.filledQuantity,
               ack.averageFillPrice.value, ack.filledQuantity == plan.quantity, now)]
  }

  function UnknownAck(plan: Plan): Ack {
    Ack("unknown-" + plan.correlationId, plan.correlationId, Unknown, 0, None)
  }

  /** Some order row already carries the id that the unknown order would get. */
  predicate NameTaken(t: Tables, plan: Plan) {
    exists i :: 0 <= i < |t.orders| && t.orders[i].orderId == "unknown-" + plan.correlationId
  }

  lemma NoOrderYet(t: Tables, plan: Plan, i: nat)
    requires TablesInv(t) && Row(t, plan, Received) && i < |t.orders|
    ensures t.orders[i].signalId != plan.signalId && t.orders[i].correlationId != plan.correlationId
  {
    hide FillsOk, PositionsOk;
    assert !HasOrder(t.orders, plan.signalId);
  }

  /** The unknown order can be recorded exactly when its id is free. */
  lemma UnknownInsertable(t: Tables, plan: Plan, now: int)
    requires TablesInv(t) && Row(t, plan, Received)
    ensures RecordExecution(t, LiveOrder(plan, UnknownAck(plan), now), [], now).Ok? <==> !NameTaken(t, plan)
  {
    hide FillsOk, PositionsOk, OrdersOk, StatesOk;
    forall i | 0 <= i < |t.orders|
      ensures t.orders[i].signalId != plan.signalId && t.orders[i].correlationId != plan.correlationId
    {
      NoOrderYet(t, plan, i);
    }
  }

  lemma LiveCoherent(t: Tables, plan: Plan, ack: Ack, now: int)
    requires plan.signalId in t.signals && t.signals[plan.signalId].plan == plan && AckAcceptable(plan, ack)
    ensures Coherent(t, LiveOrder(plan, ack, now), LiveFills(plan, ack, now))
  {
    var fills := LiveFills(plan, ack, now);
    if fills != [] { SingleFill(fills[0]); }
  }

  /** The state that the caller is told, read off the state of the order. */
  function ReportedState(o: Order): SignalState {
    if o.state == OrderFilled then Filled else if o.state == OrderPartiallyFilled then PartiallyFilled else Submitted
  }

  // ----- one caller at a time -----

  /** The caller is told the state of the last order, which is this plan's, and the signal shows how
      much of that order is filled. */
  ghost predicate Reported(t: Tables, plan: Plan, told: SignalState) {
    && t.orders != [] && var o := t.orders[|t.orders| - 1];
    && o.signalId == plan.signalId && plan.signalId in t.signals
    && told == ReportedState(o) && t.signals[plan.signalId].state == ExecutedState(o)
  }

  /** How a call ends. A call that sent its order has recorded it (`Recorded`), has recorded an
      unknown one after a timeout that the lookup did not resolve (`TimedOut`), or has recorded
      nothing (`Lost`). */
  datatype Outcome =
    | Killed | Refused | NotSubmitted | Waiting | Recorded(state: SignalState) | Failed | TimedOut | Lost

  /** Reads the switch, the day's result and the losing run, and trips the switch on a limit. */
  method CheckKillLimits(ledger: Ledger, policy: Policy, now: int) returns (killed: bool)
    modifies ledger
    ensures killed <==> Breached(old(ledger.Db()), policy, now)
    ensures ledger.Db() == if killed then old(ledger.Db()).(killSwitch := true) else old(ledger.Db())
  {
    if ledger.killSwitch { return true; }
    var daily := ledger.DailyRealizedPnl(DayOf(now));
    if daily <= -policy.maxDailyLoss {
      ledger.SetKillSwitch(true);
      return true;
    }
    var losses := ledger.CountConsecutiveLosses();
    if losses >= policy.maxConsecutiveLosses {
      ledger.SetKillSwitch(true);
      return true;
    }
    return false;
  }

  /** What the live broker answers to a submission or a lookup. */
  datatype Answer = Acked(ack: Ack) | Timeout | NotFound | Crash

  predicate LiveUnlocked(policy: Policy) {
    policy.mode == LiveAutomatic && policy.liveEnabled && policy.liveGateway
  }

  /** What the ledger and the registry have against a plan. */
  predicate Objectionable(t: Tables, policy: Policy, registry: map<string, string>, plan: Plan, now: int) {
    !PlanAcceptable(policy, registry, plan, now) || HasOpen(t, plan.securityId)
  }

  /** Submits a plan. A breached limit records no signal, approval, order, fill or position, sends
      nothing and leaves the switch on; a plan is refused exactly when its signal or correlation id is
      on record, it is not acceptable or its security is held, and then nothing changes; an order is
      sent only when live trading is unlocked and the signal is on record; whatever happens, the
      tables stay coherent. */
  method Submit(ledger: Ledger, policy: Policy, registry: map<string, string>, plan: Plan, now: int, paper: PaperConfig,
                digest: string -> string, answer: Answer, lookup: Answer) returns (outcome: Outcome, sent: bool)
    modifies ledger
    ensures outcome.Killed? <==> Breached(old(ledger.Db()), policy, now)
    ensures outcome.Killed? ==> ledger.Db() == old(ledger.Db()).(killSwitch := true) && !sent
    ensures outcome.Refused? <==>
      && !Breached(old(ledger.Db()), policy, now)
      && (Objectionable(old(ledger.Db()), policy, registry, plan, now) || plan.signalId in old(ledger.signals)
          || CorrelationUsed(old(ledger.Db()), plan.correlationId))
    ensures outcome.Refused? ==> ledger.Db() == old(ledger.Db()) && !sent
    ensures TablesInv(old(ledger.Db())) ==> TablesInv(ledger.Db())
    ensures !outcome.Killed? && !outcome.Refused? ==> plan.signalId in ledger.signals && ledger.signals[plan.signalId].plan == plan
    ensures sent <==> LiveUnlocked(policy) && !outcome.Killed? && !outcome.Refused?
    ensures outcome.NotSubmitted? ==> ledger.signals[plan.signalId].state == Blocked
    ensures outcome.NotSubmitted? ==> !LiveUnlocked(policy) && !policy.mode.ManualApproval? && !policy.mode.PaperTrading?
    ensures outcome.Waiting? ==> policy.mode.ManualApproval? && ledger.signals[plan.signalId].state == AwaitingApproval
    ensures outcome.Recorded? ==> policy.mode.PaperTrading? || sent
    ensures outcome.Recorded? ==> Reported(ledger.Db(), plan, outcome.state)
    ensures outcome.Lost? ==> sent && ledger.signals[plan.signalId].state == Received && ledger.orders == old(ledger.orders)
    ensures outcome.TimedOut? ==> sent && answer == Timeout && lookup == NotFound && ledger.signals[plan.signalId].state == Uncertain
    ensures outcome.Failed? ==> policy.mode.PaperTrading? && ledger.signals[plan.signalId].state == Received && ledger.orders == old(ledger.orders)
  {
    hide TablesInv, Breached, Objectionable, CorrelationUsed;
    ghost var before := ledger.Db();
    sent := false;
    var killed := CheckKillLimits(ledger, policy, now);
    if killed {
      SwitchInv(before);
      return Killed, false;
    }
    if plan.signalId in ledger.signals || Objectionable(ledger.Db(), policy, registry, plan, now) { return Refused, false; }
    var ok := ledger.InsertSignal(plan, Received);
    if !ok { return Refused, false; }
    UnobjectionableTradable(before, policy, registry, plan, now);
    if TablesInv(before) { ReceivedInv(before, plan); }
    outcome, sent := Route(ledger, policy, plan, now, paper, digest, answer, lookup);
  }

  /** What becomes of a signal just recorded, by mode. */
  method Route(ledger: Ledger, policy: Policy, plan: Plan, now: int, paper: PaperConfig, digest: string -> string,
               answer: Answer, lookup: Answer) returns (outcome: Outcome, sent: bool)
    requires plan.signalId in ledger.signals && ledger.signals[plan.signalId] == SignalRow(plan, Received)
    modifies ledger
    ensures !outcome.Killed? && !outcome.Refused?
    ensures plan.signalId in ledger.signals && ledger.signals[plan.signalId].plan == plan
    ensures sent <==> LiveUnlocked(policy)
    ensures outcome.NotSubmitted? ==> ledger.signals[plan.signalId].state == Blocked
    ensures outcome.NotSubmitted? ==> !LiveUnlocked(policy) && !policy.mode.ManualApproval? && !policy.mode.PaperTrading?
    ensures outcome.Waiting? ==> policy.mode.ManualApproval? && ledger.signals[plan.signalId].state == AwaitingApproval
    ensures outcome.Recorded? ==> policy.mode.PaperTrading? || sent
    ensures outcome.Recorded? ==> Reported(ledger.Db(), plan, outcome.state)
    ensures outcome.Lost? ==> sent && ledger.signals[plan.signalId].state == Received && ledger.orders == old(ledger.orders)
    ensures outcome.TimedOut? ==> sent && answer == Timeout && lookup == NotFound && ledger.signals[plan.signalId].state == Uncertain
    ensures outcome.Failed? ==> policy.mode.PaperTrading? && ledger.signals[plan.signalId].state == Received && ledger.orders == old(ledger.orders)
    ensures TablesInv(old(ledger.Db())) ==> TablesInv(ledger.Db())
  {
    hide TablesInv, PaperOrder, PaperFills, RecordExecution, LiveOrder, NameTaken, Recordable;
    ghost var before := ledger.Db();
    sent := false;
    if TablesInv(before) { ReceivedUnordered(before, plan); }
    if policy.mode == Off || policy.mode == DataOnly || (policy.mode == LiveAutomatic && !LiveUnlocked(policy)) {
      if TablesInv(before) { UpdateStateInv(before, plan.signalId, Blocked); }
      var _ := ledger.SetSignalState(plan.signalId, Blocked);
      outcome := NotSubmitted;
    } else if policy.mode == ManualApproval {
      if TablesInv(before) { UpdateStateInv(before, plan.signalId, AwaitingApproval); }
      var _ := ledger.SetSignalState(plan.signalId, AwaitingApproval);
      outcome := Waiting;
    } else if policy.mode == PaperTrading {
      outcome := ExecutePaper(ledger, plan, now, paper, digest);
    } else {
      outcome := ExecuteLive(ledger, plan, now, answer, lookup);
      sent := true;
    }
  }

  lemma ReceivedUnordered(t: Tables, plan: Plan)
    requires TablesInv(t) && plan.signalId in t.signals && t.signals[plan.signalId] == SignalRow(plan, Received)
    ensures !HasOrder(t.orders, plan.signalId)
  {
  }

  lemma UnobjectionableTradable(t: Tables, policy: Policy, registry: map<string, string>, plan: Plan, now: int)
    ensures !Objectionable(t, policy, registry, plan, now) ==> Tradable(plan)
  {
  }

  /** Routes a recorded signal to the paper broker. */
  method ExecutePaper(ledger: Ledger, plan: Plan, now: int, paper: PaperConfig, digest: string -> string) returns (outcome: Outcome)
    requires plan.signalId in ledger.signals && ledger.signals[plan.signalId].plan == plan
    modifies ledger
    ensures var r := RecordExecution(old(ledger.Db()), PaperOrder(paper, digest, plan, now), PaperFills(paper, digest, plan, now), now);
      && outcome == (if r.Ok? then Recorded(ReportedState(PaperOrder(paper, digest, plan, now))) else Failed)
      && ledger.Db() == (if r.Ok? then r.value else old(ledger.Db()))
    ensures outcome.Recorded? ==> plan.signalId in ledger.signals && ledger.signals[plan.signalId].plan == plan
    ensures outcome.Recorded? ==> Reported(ledger.Db(), plan, outcome.state)
    ensures TablesInv(old(ledger.Db())) ==> TablesInv(ledger.Db())
  {
    hide TablesInv, Coherent, PaperQuantity, PaperPrice, OrderInsertable, FillsInsertable, PositionInsertable;
    ghost var before := ledger.Db();
    var order, fills := PaperOrder(paper, digest, plan, now), PaperFills(paper, digest, plan, now);
    PaperCoherent(paper, digest, before, plan, now);
    var ok := ledger.InsertExecution(order, fills, now);
    if !ok { return Failed; }
    if TablesInv(before) { RecordExecutionInv(before, order, fills, now); }
    return Recorded(ReportedState(order));
  }

  /** An acknowledged order that the ledger takes. */
  predicate Recordable(t: Tables, plan: Plan, reply: Answer, now: int) {
    && reply.Acked? && AckAcceptable(plan, reply.ack)
    && RecordExecution(t, LiveOrder(plan, reply.ack, now), LiveFills(plan, reply.ack, now), now).Ok?
  }

  /** Sends a recorded signal to the live broker, once. It is recorded exactly when the answer is an
      acceptable acknowledgement that the ledger takes, and timed out exactly when the lookup after a
      timeout found nothing and the ledger takes the unknown order; otherwise the order is lost. */
  method ExecuteLive(ledger: Ledger, plan: Plan, now: int, answer: Answer, lookup: Answer) returns (outcome: Outcome)
    requires plan.signalId in ledger.signals && ledger.signals[plan.signalId] == SignalRow(plan, Received)
    modifies ledger
    ensures outcome.Recorded? <==> Recordable(old(ledger.Db()), plan, if answer == Timeout then lookup else answer, now)
    ensures outcome.Recorded? ==>
      var ack := (if answer == Timeout then lookup else answer).ack;
      && RecordExecution(old(ledger.Db()), LiveOrder(plan, ack, now), LiveFills(plan, ack, now), now) == Ok(ledger.Db())
      && ledger.orders == old(ledger.orders) + [LiveOrder(plan, ack, now)] && outcome.state == ReportedState(LiveOrder(plan, ack, now))
      && plan.signalId in ledger.signals && ledger.signals[plan.signalId] == SignalRow(plan, ExecutedState(LiveOrder(plan, ack, now)))
    ensures outcome.TimedOut? ==>
      && answer == Timeout && lookup == NotFound && plan.signalId in ledger.signals && ledger.signals[plan.signalId] == SignalRow(plan, Uncertain)
      && ledger.orders == old(ledger.orders) + [LiveOrder(plan, UnknownAck(plan), now)] && ledger.positions == old(ledger.positions)
    ensures TablesInv(old(ledger.Db())) ==>
      (outcome.TimedOut? <==> answer == Timeout && lookup == NotFound && !NameTaken(old(ledger.Db()), plan))
    ensures outcome.Recorded? ==> Reported(ledger.Db(), plan, outcome.state)
    ensures outcome.Recorded? || outcome.TimedOut? || outcome.Lost?
    ensures outcome.Lost? ==> ledger.Db() == old(ledger.Db())
    ensures TablesInv(old(ledger.Db())) ==> TablesInv(ledger.Db())
  {
    hide TablesInv, Coherent, OrderInsertable, FillsInsertable, PositionInsertable, NameTaken;
    ghost var before := ledger.Db();
    var reply := if answer == Timeout then lookup else answer;
    if answer == Timeout && lookup == NotFound {
      outcome := RecordTimeout(ledger, plan, now);
      return;
    }
    if !reply.Acked? || !AckAcceptable(plan, reply.ack) { return Lost; }
    var order, fills := LiveOrder(plan, reply.ack, now), LiveFills(plan, reply.ack, now);
    LiveCoherent(before, plan, reply.ack, now);
    var ok := ledger.InsertExecution(order, fills, now);
    if !ok { return Lost; }
    if TablesInv(before) { RecordExecutionInv(before, order, fills, now); }
    return Recorded(ReportedState(order));
  }

  /** Records the unknown order of an unresolved timeout and marks its signal uncertain; lost exactly
      when an order row already carries that id. */
  method RecordTimeout(ledger: Ledger, plan: Plan, now: int) returns (outcome: Outcome)
    requires plan.signalId in ledger.signals && ledger.signals[plan.signalId] == SignalRow(plan, Received)
    modifies ledger
    ensures outcome.TimedOut? || outcome.Lost?
    ensures TablesInv(old(ledger.Db())) ==> (outcome.Lost? <==> NameTaken(old(ledger.Db()), plan))
    ensures outcome.Lost? ==> ledger.Db() == old(ledger.Db())
    ensures outcome.TimedOut? ==>
      && plan.signalId in ledger.signals && ledger.signals[plan.signalId] == SignalRow(plan, Uncertain)
      && ledger.orders == old(ledger.orders) + [LiveOrder(plan, UnknownAck(plan), now)] && ledger.positions == old(ledger.positions)
    ensures TablesInv(old(ledger.Db())) ==> TablesInv(ledger.Db())
  {
    hide TablesInv, Coherent, OrderInsertable, FillsInsertable, PositionInsertable, Executed, NameTaken;
    ghost var before := ledger.Db();
    var order := LiveOrder(plan, UnknownAck(plan), now);
    UnknownCoherent(before, plan, now);
    if TablesInv(before) { UnknownInsertable(before, plan, now); }
    var ok := ledger.InsertExecution(order, [], now);
    if !ok { return Lost; }
    ghost var recorded := ledger.Db();
    if TablesInv(before) {
      RecordExecutionInv(before, order, [], now);
      UpdateStateInv(recorded, plan.signalId, Uncertain);
    }
    ok := ledger.SetSignalState(plan.signalId, Uncertain);
    return TimedOut;
  }

  lemma UnknownCoherent(t: Tables, plan: Plan, now: int)
    requires plan.signalId in t.signals && t.signals[plan.signalId].plan == plan
    ensures Coherent(t, LiveOrder(plan, UnknownAck(plan), now), [])
    ensures Executed(Uncertain)
    ensures RecordExecution(t, LiveOrder(plan, UnknownAck(plan), now), [], now).Ok? ==> ExecutedState(LiveOrder(plan, UnknownAck(plan), now)) == Submitted
  {
  }

  /** The approval fits the waiting signal. */
  predicate Approvable(t: Tables, policy: Policy, signalId: string, approval: Approval, now: int) {
    && policy.mode == ManualApproval && approval.actor != "" && approval.reason != ""
    && approval.approvedAt - now <= policy.futureClockSkew
    && signalId in t.signals && t.signals[signalId].plan.signalTime <= approval.approvedAt
    && t.signals[signalId].state == AwaitingApproval
  }

  /** Approves a waiting signal and executes it on paper. Only a fitting approval reaches the kill
      checks, and a breached limit then records nothing but the switch. */
  method Approve(ledger: Ledger, policy: Policy, registry: map<string, string>, signalId: string, approval: Approval, now: int,
                 paper: PaperConfig, digest: string -> string) returns (outcome: Outcome)
    requires TablesInv(ledger.Db())
    modifies ledger
    ensures outcome.Killed? <==> Approvable(old(ledger.Db()), policy, signalId, approval, now) && Breached(old(ledger.Db()), policy, now)
    ensures outcome.Killed? ==> ledger.Db() == old(ledger.Db()).(killSwitch := true)
    ensures outcome.Refused? <==>
      || !Approvable(old(ledger.Db()), policy, signalId, approval, now)
      || (!Breached(old(ledger.Db()), policy, now)
          && (signalId in old(ledger.approvals) || Objectionable(old(ledger.Db()), policy, registry, old(ledger.signals)[signalId].plan, now)))
    ensures outcome.Refused? ==> ledger.Db() == old(ledger.Db())
    ensures TablesInv(ledger.Db())
    ensures outcome.Killed? || outcome.Refused? || outcome.Recorded? || outcome.Failed?
    ensures outcome.Recorded? || outcome.Failed? ==>
      signalId in ledger.approvals && ledger.approvals[signalId] == approval && signalId in ledger.signals
    ensures outcome.Recorded? ==> Reported(ledger.Db(), ledger.signals[signalId].plan, outcome.state)
    ensures outcome.Failed? ==> ledger.signals == old(ledger.signals)
  {
    hide TablesInv, Breached, PaperOrder, PaperFills, Objectionable, RecordExecution;
    ghost var before := ledger.Db();
    if !Approvable(ledger.Db(), policy, signalId, approval, now) { return Refused; }
    var plan := ledger.signals[signalId].plan;
    var killed := CheckKillLimits(ledger, policy, now);
    if killed {
      SwitchInv(before);
      return Killed;
    }
    if Objectionable(ledger.Db(), policy, registry, plan, now) { return Refused; }
    var ok := ledger.InsertApproval(signalId, approval);
    if !ok { return Refused; }
    ApprovalKeeps(before, ledger.Db());
    KeyOf(before, signalId);
    ghost var approved := ledger.Db();
    outcome := ExecutePaper(ledger, plan, now, paper, digest);
    if outcome.Recorded? { ExecutionKeepsApprovals(approved, PaperOrder(paper, digest, plan, now), PaperFills(paper, digest, plan, now), now); }
  }

  lemma ExecutionKeepsApprovals(t: Tables, o: Order, fills: seq<Fill>, now: int)
    requires RecordExecution(t, o, fills, now).Ok?
    ensures RecordExecution(t, o, fills, now).value.approvals == t.approvals
  {
  }

  lemma ApprovalKeeps(t: Tables, t': Tables)
    requires TablesInv(t) && t' == t.(approvals := t'.approvals)
    ensures TablesInv(t')
  {
  }

  lemma KeyOf(t: Tables, id: string)
    requires TablesInv(t) && id in t.signals
    ensures t.signals[id].plan.signalId == id
  {
  }

  lemma SwitchInv(t: Tables)
    ensures TablesInv(t) ==> TablesInv(t.(killSwitch := true))
  {
  }

  /** A freshly recorded signal has no order. */
  lemma ReceivedInv(t: Tables, plan: Plan)
    requires TablesInv(t) && Tradable(plan) && RecordSignal(t, plan, Received).Ok?
    ensures var t' := RecordSignal(t, plan, Received).value;
      && TablesInv(t') && plan.signalId in t'.signals && !HasOrder(t'.orders, plan.signalId)
      && t'.signals[plan.signalId] == SignalRow(plan, Received)
  {
    RecordSignalInv(t, plan);
  }
}
