/** Submissions, approvals, closes and operator switches by any number of threads. Each ledger
    access is one atomic step and steps interleave freely; the broker, the clock, the instrument
    registry and the callers are chosen by the environment at every step. */
module ExecutionProtocol {
  import opened Outcomes
  import opened ExecutionModels
  import opened ExecutionLedger
  import opened ExecutionSafety
  import opened ExecutionController

  /** Where a call stands. */
  datatype Pc =
    | ReadPlan | ReadState
    | ReadKill | ReadDaily | ReadLosses | Trip
    | CheckSignal | CheckPosition | Record
    | Branch | MarkBlocked | MarkAwaiting | PaperExec
    | LiveSend | LiveLookup | RecordUnknown | MarkUncertain | RecordLive(ack: Ack)
    | Done(outcome: Outcome)

  /** A call of `submit` (no approval) or of `approve`. */
  datatype Thread = Thread(policy: Policy, signalId: string, plan: Plan, approval: Option<Approval>, pc: Pc)

  /** What one step meets outside the ledger. */
  datatype Env = Env(now: int, registry: map<string, string>, paper: PaperConfig, answer: Answer)

  datatype Sys = Sys(tables: Tables, threads: map<nat, Thread>, sent: seq<string>)

  datatype Action =
    | Start(tid: nat, thread: Thread)
    | Advance(tid: nat, env: Env)
    | Close(positionId: string, exitPrice: real, closedAt: int)
    | Operator(active: bool)

  predicate Starting(th: Thread) {
    if th.approval.None? then th.pc == ReadKill && th.signalId == th.plan.signalId
    else th.pc == ReadPlan && th.policy.mode == ManualApproval && th.approval.value.actor != "" && th.approval.value.reason != ""
  }

  function Put(s: Sys, tid: nat, th: Thread): Sys {
    s.(threads := s.threads[tid := th])
  }

  function Goto(s: Sys, tid: nat, pc: Pc): Sys
    requires tid in s.threads
  {
    Put(s, tid, s.threads[tid].(pc := pc))
  }

  /** Commits a transaction and goes on, or ends the call with the tables untouched. */
  function Commit(s: Sys, tid: nat, r: Result<Tables>, next: Pc, failed: Outcome): Sys
    requires tid in s.threads
  {
    if r.Ok? then Goto(s.(tables := r.value), tid, next) else Goto(s, tid, Done(failed))
  }

  function NextAfterRecord(policy: Policy): Pc {
    match policy.mode
    case Off => MarkBlocked
    case DataOnly => MarkBlocked
    case ManualApproval => MarkAwaiting
    case PaperTrading => PaperExec
    case LiveAutomatic => if policy.liveEnabled && policy.liveGateway then LiveSend else MarkBlocked
  }

  /** One atomic step of one call. */
  function StepThread(digest: string -> string, s: Sys, tid: nat, env: Env): Sys
    requires tid in s.threads
  {
    var th := s.threads[tid];
    var t := s.tables;
    match th.pc
    case ReadPlan =>
      if th.signalId !in t.signals then Goto(s, tid, Done(Refused))
      else Put(s, tid, th.(plan := t.signals[th.signalId].plan,
                           pc := if th.approval.Some?
                                    && th.approval.value.approvedAt - env.now <= th.policy.futureClockSkew
                                    && t.signals[th.signalId].plan.signalTime <= th.approval.value.approvedAt
                                 then ReadState else Done(Refused)))
    case ReadState =>
      Goto(s, tid, if th.signalId in t.signals && t.signals[th.signalId].state == AwaitingApproval then ReadKill else Done(Refused))
    case ReadKill => Goto(s, tid, if t.killSwitch then Done(Killed) else ReadDaily)
    case ReadDaily =>
      Goto(s, tid, if DailyPnl(t.positions, DayOf(env.now)) <= -th.policy.maxDailyLoss then Trip else ReadLosses)
    case ReadLosses =>
      Goto(s, tid, if ConsecutiveLosses(t.positions) >= th.policy.maxConsecutiveLosses then Trip
                   else if th.approval.None? then CheckSignal else CheckPosition)
    case Trip => Goto(s.(tables := t.(killSwitch := true)), tid, Done(Killed))
    case CheckSignal => Goto(s, tid, if th.plan.signalId in t.signals then Done(Refused) else CheckPosition)
    case CheckPosition =>
      Goto(s, tid, if PlanAcceptable(th.policy, env.registry, th.plan, env.now) && !HasOpen(t, th.plan.securityId)
                   then Record else Done(Refused))
    case Record =>
      if th.approval.None? then Commit(s, tid, RecordSignal(t, th.plan, Received), Branch, Refused)
      else Commit(s, tid, RecordApproval(t, th.plan.signalId, th.approval.value), PaperExec, Refused)
    case Branch => Goto(s, tid, NextAfterRecord(th.policy))
    case MarkBlocked => Commit(s, tid, UpdateSignalState(t, th.plan.signalId, Blocked), Done(NotSubmitted), Failed)
    case MarkAwaiting => Commit(s, tid, UpdateSignalState(t, th.plan.signalId, AwaitingApproval), Done(Waiting), Failed)
    case PaperExec =>
      var order := PaperOrder(env.paper, digest, th.plan, env.now);
      Commit(s, tid, RecordExecution(t, order, PaperFills(env.paper, digest, th.plan, env.now), env.now),
             Done(Recorded(ReportedState(order))), Failed)
    case LiveSend =>
      Goto(s.(sent := s.sent + [th.plan.correlationId]), tid,
           match env.answer
           case Acked(ack) => if AckAcceptable(th.plan, ack) then RecordLive(ack) else Done(Lost)
           case Timeout => LiveLookup
           case _ => Done(Lost))
    case LiveLookup =>
      Goto(s, tid,
           match env.answer
           case Acked(ack) => if AckAcceptable(th.plan, ack) then RecordLive(ack) else Done(Lost)
           case NotFound => RecordUnknown
           case _ => Done(Lost))
    case RecordUnknown =>
      Commit(s, tid, RecordExecution(t, LiveOrder(th.plan, UnknownAck(th.plan), env.now), [], env.now), MarkUncertain, Lost)
    case MarkUncertain => Commit(s, tid, UpdateSignalState(t, th.plan.signalId, Uncertain), Done(TimedOut), Failed)
    case RecordLive(ack) =>
      if !AckAcceptable(th.plan, ack) then Goto(s, tid, Done(Lost))
      else
        var order := LiveOrder(th.plan, ack, env.now);
        Commit(s, tid, RecordExecution(t, order, LiveFills(th.plan, ack, env.now), env.now),
               Done(Recorded(ReportedState(order))), Lost)
    case Done(_) => s
  }

  function Apply(digest: string -> string, s: Sys, a: Action): Sys {
    match a
    case Start(tid, th) => if tid !in s.threads && Starting(th) then Put(s, tid, th) else s
    case Advance(tid, env) => if tid in s.threads then StepThread(digest, s, tid, env) else s
    case Close(id, price, at) =>
      var r := ClosePosition(s.tables, id, price, at);
      if r.Ok? then s.(tables := r.value) else s
    case Operator(active) => s.(tables := s.tables.(killSwitch := active))
  }

  const IDLE := Sys(EMPTY_TABLES, map[], [])

  function Run(digest: string -> string, s: Sys, actions: seq<Action>): Sys {
    if actions == [] then s
    else Apply(digest, Run(digest, s, actions[..|actions| - 1]), actions[|actions| - 1])
  }

  // ----- what each call may rely on -----

  /** The call owns its signal row: it is still writing to it, or lost track of its order. */
  predicate Active(pc: Pc) {
    pc.Branch? || pc.MarkBlocked? || pc.MarkAwaiting? || pc.PaperExec? || pc.LiveSend? || pc.LiveLookup?
    || pc.RecordUnknown? || pc.MarkUncertain? || pc.RecordLive? || pc == Done(Lost)
  }

  /** The call has handed its order to the broker. */
  predicate Sent(pc: Pc) {
    pc.LiveLookup? || pc.RecordUnknown? || pc.MarkUncertain? || pc.RecordLive? || pc == Done(TimedOut) || pc == Done(Lost)
  }

  /** The call may still send its order. */
  predicate Unsent(pc: Pc) {
    pc.Branch? || pc.MarkBlocked? || pc.MarkAwaiting? || pc.LiveSend?
  }

  /** The only order of the signal is the unknown one left by a timeout. */
  ghost predicate UnknownOrder(t: Tables, plan: Plan) {
    exists i :: 0 <= i < |t.orders| && t.orders[i].signalId == plan.signalId && t.orders[i].state == Unknown
      && t.orders[i].filledQuantity == 0 && t.orders[i].correlationId == plan.correlationId
  }

  /** The plan is on record with an order row. */
  ghost predicate Placed(t: Tables, plan: Plan) {
    plan.signalId in t.signals && t.signals[plan.signalId].plan == plan && HasOrder(t.orders, plan.signalId)
  }

  ghost predicate SeenAwaiting(t: Tables, th: Thread) {
    && th.plan.signalId in t.signals && t.signals[th.plan.signalId].plan == th.plan
    && (t.signals[th.plan.signalId].state == AwaitingApproval || th.plan.signalId in t.approvals)
  }

  ghost predicate ThreadOk(t: Tables, sent: seq<string>, th: Thread) {
    && (Unsent(th.pc) ==> th.plan.correlationId !in sent)
    && (Sent(th.pc) ==> th.plan.correlationId in sent)
    && match th.pc
       case ReadPlan => th.approval.Some?
       case ReadState => th.approval.Some? && th.signalId in t.signals && t.signals[th.signalId].plan == th.plan
       case ReadKill => th.approval.Some? ==> SeenAwaiting(t, th)
       case ReadDaily => th.approval.Some? ==> SeenAwaiting(t, th)
       case ReadLosses => th.approval.Some? ==> SeenAwaiting(t, th)
       case Trip => true
       case CheckSignal => th.approval.None?
       case CheckPosition => th.approval.Some? ==> SeenAwaiting(t, th)
       case Record => if th.approval.Some? then SeenAwaiting(t, th) else Tradable(th.plan)
       case PaperExec =>
         || Row(t, th.plan, Received)
         || (Row(t, th.plan, AwaitingApproval) && th.plan.signalId in t.approvals)
       case MarkUncertain => Row(t, th.plan, Submitted) && UnknownOrder(t, th.plan)
       case Done(outcome) =>
         && (outcome == TimedOut ==> Row(t, th.plan, Uncertain) && UnknownOrder(t, th.plan))
         && (outcome == Lost ==> Row(t, th.plan, Received))
         && (outcome.Recorded? ==> Placed(t, th.plan))
       case _ => Row(t, th.plan, Received)
  }

  ghost predicate NoRepeats(s: seq<string>) {
    forall i, k :: 0 <= i < k < |s| ==> s[i] != s[k]
  }

  ghost predicate ThreadsInv(s: Sys) {
    && (forall tid :: tid in s.threads ==> ThreadOk(s.tables, s.sent, s.threads[tid]))
    && (forall a, b :: (a in s.threads && b in s.threads && a != b
                        && Active(s.threads[a].pc) && Active(s.threads[b].pc)) ==>
          s.threads[a].plan.signalId != s.threads[b].plan.signalId)
  }

  /** No correlation id was sent twice, and every sent one has a recorded signal. */
  ghost predicate SentInv(s: Sys) {
    NoRepeats(s.sent) && forall i :: 0 <= i < |s.sent| ==> CorrelationUsed(s.tables, s.sent[i])
  }

  ghost predicate Inv(s: Sys) {
    TablesInv(s.tables) && ThreadsInv(s) && SentInv(s)
  }

  // ----- steps do not disturb other calls -----

  /** `t` becomes `t'`: only the state of row `id` may differ, nothing is deleted. */
  ghost predicate Grows(t: Tables, t': Tables, id: string) {
    && (forall x :: x in t.signals ==> x in t'.signals && t'.signals[x].plan == t.signals[x].plan)
    && (forall x :: x in t.signals && x != id ==> x in t'.signals && t'.signals[x] == t.signals[x])
    && (forall x :: x in t.approvals ==> x in t'.approvals)
    && t.orders <= t'.orders
  }

  /** Row `id` is being written by its owner: a received or half-recorded signal, or an approved one. */
  ghost predicate Writable(t: Tables, id: string) {
    id in t.signals ==>
      t.signals[id].state == Received || t.signals[id].state == Submitted
      || (t.signals[id].state == AwaitingApproval && id in t.approvals)
  }

  lemma UnknownOrderStays(t: Tables, t': Tables, plan: Plan)
    requires UnknownOrder(t, plan) && t.orders <= t'.orders
    ensures UnknownOrder(t', plan)
  {
    var i :| 0 <= i < |t.orders| && t.orders[i].signalId == plan.signalId && t.orders[i].state == Unknown
      && t.orders[i].filledQuantity == 0 && t.orders[i].correlationId == plan.correlationId;
    assert t'.orders[i] == t.orders[i];
  }

  lemma HasOrderStays(orders: seq<Order>, more: seq<Order>, id: string)
    requires HasOrder(orders, id) && orders <= more
    ensures HasOrder(more, id)
  {
    var i :| 0 <= i < |orders| && orders[i].signalId == id;
    assert more[i].signalId == id;
  }

  /** A thread that is not writing row `id` keeps its facts when that row is written. */
  lemma Undisturbed(t: Tables, t': Tables, id: string, sent: seq<string>, sent': seq<string>, th: Thread)
    requires ThreadOk(t, sent, th) && Grows(t, t', id) && Writable(t, id)
    requires Active(th.pc) ==> th.plan.signalId != id
    requires Unsent(th.pc) ==> th.plan.correlationId !in sent'
    requires Sent(th.pc) ==> th.plan.correlationId in sent'
    ensures ThreadOk(t', sent', th)
  {
    if th.pc.MarkUncertain? || (th.pc.Done? && th.pc.outcome == TimedOut) {
      UnknownOrderStays(t, t', th.plan);
    }
    if HasOrder(t.orders, th.plan.signalId) { HasOrderStays(t.orders, t'.orders, th.plan.signalId); }
  }

  lemma CorrelationStays(t: Tables, t': Tables, id: string, c: string)
    requires Grows(t, t', id) && CorrelationUsed(t, c)
    ensures CorrelationUsed(t', c)
  {
    var x :| x in t.signals && t.signals[x].plan.correlationId == c;
    assert t'.signals[x].plan.correlationId == c;
  }

  /** A call commits a write to its own row and moves to `pc`. */
  lemma WriteStep(s: Sys, t': Tables, tid: nat, pc: Pc)
    requires Inv(s) && tid in s.threads && TablesInv(t')
    requires var id := s.threads[tid].plan.signalId;
      && Grows(s.tables, t', id) && Writable(s.tables, id)
      && (forall u :: (u in s.threads && u != tid && Active(s.threads[u].pc)) ==> s.threads[u].plan.signalId != id)
    requires ThreadOk(t', s.sent, s.threads[tid].(pc := pc))
    ensures Inv(Goto(s.(tables := t'), tid, pc))
  {
    hide TablesInv, ThreadOk, Writable, Grows;
    var id := s.threads[tid].plan.signalId;
    var s' := Goto(s.(tables := t'), tid, pc);
    forall u | u in s'.threads ensures ThreadOk(t', s.sent, s'.threads[u]) {
      if u != tid {
        SentFact(s.tables, s.sent, s.threads[u]);
        Undisturbed(s.tables, t', id, s.sent, s.sent, s.threads[u]);
      }
    }
    forall i | 0 <= i < |s.sent| ensures CorrelationUsed(t', s.sent[i]) {
      CorrelationStays(s.tables, t', id, s.sent[i]);
    }
  }

  lemma SentFact(t: Tables, sent: seq<string>, th: Thread)
    requires ThreadOk(t, sent, th)
    ensures Unsent(th.pc) ==> th.plan.correlationId !in sent
    ensures Sent(th.pc) ==> th.plan.correlationId in sent
  {
  }

  /** A step that only reads the ledger and moves to a pc whose facts hold. */
  lemma ReadStep(s: Sys, tid: nat, th': Thread)
    requires Inv(s) && tid in s.threads && ThreadOk(s.tables, s.sent, th')
    requires Active(th'.pc) ==> Active(s.threads[tid].pc) && th'.plan == s.threads[tid].plan
    ensures Inv(Put(s, tid, th'))
  {
    hide TablesInv, ThreadOk;
  }

  /** Writing to a signal row owned by this active call disturbs nobody. */
  lemma OwnerAlone(s: Sys, tid: nat)
    requires Inv(s) && tid in s.threads && Active(s.threads[tid].pc)
    ensures var id := s.threads[tid].plan.signalId;
      && Writable(s.tables, id) && id in s.tables.signals && s.tables.signals[id].plan == s.threads[tid].plan
      && (forall u :: (u in s.threads && u != tid && Active(s.threads[u].pc)) ==> s.threads[u].plan.signalId != id)
  {
    hide TablesInv, ThreadOk, SentInv, Writable;
    assert ThreadOk(s.tables, s.sent, s.threads[tid]);
    OwnRow(s.tables, s.sent, s.threads[tid]);
  }

  lemma OwnRow(t: Tables, sent: seq<string>, th: Thread)
    requires ThreadOk(t, sent, th) && Active(th.pc)
    ensures Writable(t, th.plan.signalId) && th.plan.signalId in t.signals && t.signals[th.plan.signalId].plan == th.plan
  {
    hide UnknownOrder;
  }

  // ----- the steps -----

  lemma SignalGrows(t: Tables, plan: Plan)
    requires RecordSignal(t, plan, Received).Ok?
    ensures Grows(t, RecordSignal(t, plan, Received).value, plan.signalId)
  {
  }

  lemma UpdateGrows(t: Tables, id: string, state: SignalState)
    requires id in t.signals
    ensures Grows(t, UpdateSignalState(t, id, state).value, id)
  {
  }

  lemma ExecutionGrows(t: Tables, order: Order, fills: seq<Fill>, now: int)
    requires RecordExecution(t, order, fills, now).Ok?
    ensures Grows(t, RecordExecution(t, order, fills, now).value, order.signalId)
    ensures order.signalId in t.signals
  {
  }

  lemma RecordSubmitInv(s: Sys, tid: nat)
    requires Inv(s) && tid in s.threads && s.threads[tid].pc == Record && s.threads[tid].approval.None?
    ensures Inv(Commit(s, tid, RecordSignal(s.tables, s.threads[tid].plan, Received), Branch, Refused))
  {
    hide TablesInv, Grows, ThreadsInv, SentInv, CorrelationUsed, Tradable, ThreadOk;
    var th := s.threads[tid];
    var r := RecordSignal(s.tables, th.plan, Received);
    if r.Ok? {
      FactsOf(s, tid);
      RecordFact(s.tables, s.sent, th);
      RecordSignalInv(s.tables, th.plan);
      SignalGrows(s.tables, th.plan);
      UnusedUnsent(s, th.plan.correlationId);
      BranchOk(r.value, s.sent, th);
      forall u | u in s.threads && u != tid && Active(s.threads[u].pc) ensures s.threads[u].plan.signalId != th.plan.signalId {
        OwnerAlone(s, u);
      }
      WriteStep(s, r.value, tid, Branch);
    } else {
      EndOk(s.tables, s.sent, th, Refused);
      ReadStep(s, tid, th.(pc := Done(Refused)));
    }
  }

  lemma RecordFact(t: Tables, sent: seq<string>, th: Thread)
    requires ThreadOk(t, sent, th) && th.pc == Record
    ensures if th.approval.Some? then SeenAwaiting(t, th) else Tradable(th.plan)
  {
  }

  lemma BranchOk(t: Tables, sent: seq<string>, th: Thread)
    requires Row(t, th.plan, Received) && th.plan.correlationId !in sent
    ensures ThreadOk(t, sent, th.(pc := Branch))
  {
  }

  /** A call that ends without losing track of its order relies at most on its order row. */
  lemma EndOk(t: Tables, sent: seq<string>, th: Thread, outcome: Outcome)
    requires outcome != TimedOut && outcome != Lost && (outcome.Recorded? ==> Placed(t, th.plan))
    ensures ThreadOk(t, sent, th.(pc := Done(outcome)))
  {
  }

  lemma LostOk(t: Tables, sent: seq<string>, th: Thread)
    requires Row(t, th.plan, Received) && th.plan.correlationId in sent
    ensures ThreadOk(t, sent, th.(pc := Done(Lost)))
  {
  }

  /** A call that sent its order and has not recorded it. */
  lemma SentReceived(t: Tables, sent: seq<string>, th: Thread)
    requires ThreadOk(t, sent, th) && (th.pc.LiveLookup? || th.pc.RecordUnknown? || th.pc.RecordLive?)
    ensures Row(t, th.plan, Received) && th.plan.correlationId in sent
  {
  }

  lemma UnusedUnsent(s: Sys, c: string)
    requires SentInv(s) && !CorrelationUsed(s.tables, c)
    ensures c !in s.sent
  {
    hide CorrelationUsed;
  }

  lemma RecordApproveInv(s: Sys, tid: nat)
    requires Inv(s) && tid in s.threads && s.threads[tid].pc == Record && s.threads[tid].approval.Some?
    ensures Inv(Commit(s, tid, RecordApproval(s.tables, s.threads[tid].plan.signalId, s.threads[tid].approval.value), PaperExec, Refused))
  {
    hide TablesInv, ThreadsInv, SentInv, ThreadOk;
    var th := s.threads[tid];
    var id := th.plan.signalId;
    var r := RecordApproval(s.tables, id, th.approval.value);
    FactsOf(s, tid);
    RecordFact(s.tables, s.sent, th);
    if r.Ok? {
      KeyOf(s.tables, id);
      ApprovalKeeps(s.tables, r.value);
      ApprovedOk(r.value, s.sent, th);
      forall u | u in s.threads && u != tid && Active(s.threads[u].pc) ensures s.threads[u].plan.signalId != id {
        OwnerAlone(s, u);
      }
      ApprovalStep(s, tid, r.value);
    } else {
      EndOk(s.tables, s.sent, th, Refused);
      ReadStep(s, tid, th.(pc := Done(Refused)));
    }
  }

  lemma ApprovedOk(t: Tables, sent: seq<string>, th: Thread)
    requires Row(t, th.plan, AwaitingApproval) && th.plan.signalId in t.approvals
    ensures ThreadOk(t, sent, th.(pc := PaperExec))
  {
  }

  /** Calls rely on signals, orders and the presence of approvals. */
  lemma SameSignals(t: Tables, t': Tables, sent: seq<string>, th: Thread)
    requires ThreadOk(t, sent, th) && t'.signals == t.signals && t'.orders == t.orders && t.approvals.Keys <= t'.approvals.Keys
    ensures ThreadOk(t', sent, th)
  {
  }

  /** Recording an approval touches no signal row. */
  lemma ApprovalStep(s: Sys, tid: nat, t': Tables)
    requires Inv(s) && tid in s.threads && TablesInv(t')
    requires t' == s.tables.(approvals := t'.approvals) && s.tables.approvals.Keys <= t'.approvals.Keys
    requires var th := s.threads[tid];
      && ThreadOk(t', s.sent, th.(pc := PaperExec))
      && (forall u :: (u in s.threads && u != tid && Active(s.threads[u].pc)) ==> s.threads[u].plan.signalId != th.plan.signalId)
    ensures Inv(Goto(s.(tables := t'), tid, PaperExec))
  {
    hide TablesInv, ThreadOk;
    var s' := Goto(s.(tables := t'), tid, PaperExec);
    forall u | u in s'.threads ensures ThreadOk(t', s.sent, s'.threads[u]) {
      if u != tid { SameSignals(s.tables, t', s.sent, s.threads[u]); }
    }
    forall i | 0 <= i < |s.sent| ensures CorrelationUsed(t', s.sent[i]) {
      CorrelationStays(s.tables, t', "", s.sent[i]);
    }
  }

  /** An owner changes the state of its row. */
  lemma MarkInv(s: Sys, tid: nat, state: SignalState, next: Outcome)
    requires Inv(s) && tid in s.threads
    requires var pc := s.threads[tid].pc;
      || (pc.MarkBlocked? && state == Blocked && next == NotSubmitted)
      || (pc.MarkAwaiting? && state == AwaitingApproval && next == Waiting)
      || (pc.MarkUncertain? && state == Uncertain && next == TimedOut)
    ensures Inv(Commit(s, tid, UpdateSignalState(s.tables, s.threads[tid].plan.signalId, state), Done(next), Failed))
  {
    hide TablesInv, Grows, ThreadsInv, SentInv, Writable, ThreadOk;
    var th := s.threads[tid];
    var id := th.plan.signalId;
    OwnerAlone(s, tid);
    FactsOf(s, tid);
    MarkFact(s.tables, s.sent, th);
    OrderPresence(s.tables, id);
    UpdateStateInv(s.tables, id, state);
    UpdateGrows(s.tables, id, state);
    var t' := UpdateSignalState(s.tables, id, state).value;
    if th.pc.MarkUncertain? { UncertainOk(s.tables, t', s.sent, th); } else { EndOk(t', s.sent, th, next); }
    WriteStep(s, t', tid, Done(next));
  }

  lemma MarkFact(t: Tables, sent: seq<string>, th: Thread)
    requires ThreadOk(t, sent, th)
    ensures th.pc.MarkBlocked? || th.pc.MarkAwaiting? ==> Row(t, th.plan, Received)
    ensures th.pc.MarkUncertain? ==> Row(t, th.plan, Submitted) && UnknownOrder(t, th.plan) && th.plan.correlationId in sent
  {
  }

  lemma UncertainOk(t: Tables, t': Tables, sent: seq<string>, th: Thread)
    requires UnknownOrder(t, th.plan) && t.orders <= t'.orders && Row(t', th.plan, Uncertain) && th.plan.correlationId in sent
    ensures ThreadOk(t', sent, th.(pc := Done(TimedOut)))
  {
    UnknownOrderStays(t, t', th.plan);
  }

  lemma FactsOf(s: Sys, tid: nat)
    requires Inv(s) && tid in s.threads
    ensures TablesInv(s.tables) && ThreadOk(s.tables, s.sent, s.threads[tid])
  {
  }

  lemma OrderPresence(t: Tables, id: string)
    requires TablesInv(t) && id in t.signals
    ensures HasOrder(t.orders, id) <==> Executed(t.signals[id].state)
  {
  }

  /** An owner records its order. */
  lemma ExecuteInv(s: Sys, tid: nat, order: Order, fills: seq<Fill>, now: int, next: Pc)
    requires Inv(s) && tid in s.threads && Active(s.threads[tid].pc)
    requires Coherent(s.tables, order, fills) && order.signalId == s.threads[tid].plan.signalId
    requires next == MarkUncertain || (next.Done? && next.outcome != TimedOut && next.outcome != Lost)
    requires next == MarkUncertain ==>
      s.threads[tid].pc == RecordUnknown && order.state == Unknown && order.filledQuantity == 0 && order.quantity != 0
    ensures RecordExecution(s.tables, order, fills, now).Ok? ==>
      Inv(Goto(s.(tables := RecordExecution(s.tables, order, fills, now).value), tid, next))
    ensures Inv(Goto(s, tid, Done(Failed)))
  {
    hide TablesInv, Coherent, RecordExecution, Grows, ThreadsInv, SentInv, Writable, ThreadOk, HasOrder;
    var th := s.threads[tid];
    var r := RecordExecution(s.tables, order, fills, now);
    OwnerAlone(s, tid);
    FactsOf(s, tid);
    EndOk(s.tables, s.sent, th, Failed);
    if r.Ok? {
      RecordExecutionInv(s.tables, order, fills, now);
      ExecutionGrows(s.tables, order, fills, now);
      ExecutedRow(s.tables, order, fills, now);
      if next == MarkUncertain {
        CoherentFact(s.tables, order, fills);
        SentFact(s.tables, s.sent, th);
        RecordedUnknown(r.value, s.sent, th, order);
      } else {
        EndOk(r.value, s.sent, th, next.outcome);
      }
      WriteStep(s, r.value, tid, next);
    }
    ReadStep(s, tid, th.(pc := Done(Failed)));
  }

  lemma ExecutedRow(t: Tables, o: Order, fills: seq<Fill>, now: int)
    requires RecordExecution(t, o, fills, now).Ok? && o.signalId in t.signals
    ensures var t' := RecordExecution(t, o, fills, now).value;
      && t'.orders == t.orders + [o]
      && t'.signals == t.signals[o.signalId := t.signals[o.signalId].(state := ExecutedState(o))]
  {
    hide OrderInsertable, FillsInsertable, PositionInsertable;
  }

  lemma RecordedUnknown(t: Tables, sent: seq<string>, th: Thread, order: Order)
    requires Row(t, th.plan, Submitted) && th.plan.correlationId in sent
    requires |t.orders| > 0 && t.orders[|t.orders| - 1] == order && order.signalId == th.plan.signalId
    requires order.state == Unknown && order.filledQuantity == 0 && order.correlationId == th.plan.correlationId
    ensures ThreadOk(t, sent, th.(pc := MarkUncertain))
  {
  }

  lemma CoherentFact(t: Tables, o: Order, fills: seq<Fill>)
    requires Coherent(t, o, fills)
    ensures o.signalId in t.signals && o.correlationId == t.signals[o.signalId].plan.correlationId
  {
  }

  /** Sending an order uses up its correlation id. */
  lemma SendInv(s: Sys, tid: nat, pc: Pc)
    requires Inv(s) && tid in s.threads && s.threads[tid].pc == LiveSend
    requires pc.RecordLive? || pc.LiveLookup? || pc == Done(Lost)
    ensures Inv(Goto(s.(sent := s.sent + [s.threads[tid].plan.correlationId]), tid, pc))
  {
    hide TablesInv, ThreadOk;
    var th := s.threads[tid];
    var sent' := s.sent + [th.plan.correlationId];
    var s' := Goto(s.(sent := sent'), tid, pc);
    OwnerAlone(s, tid);
    JustSent(s.tables, s.sent, th, pc);
    forall u | u in s'.threads && u != tid ensures ThreadOk(s.tables, sent', s'.threads[u]) {
      SentFact(s.tables, s.sent, s.threads[u]);
      if Unsent(s.threads[u].pc) {
        OwnerAlone(s, u);
        SameCorrelation(s.tables, th.plan.signalId, s.threads[u].plan.signalId);
      }
      SentMore(s.tables, s.sent, sent', s.threads[u]);
    }
    SentFact(s.tables, s.sent, th);
    assert CorrelationUsed(s.tables, th.plan.correlationId);
  }

  lemma JustSent(t: Tables, sent: seq<string>, th: Thread, pc: Pc)
    requires ThreadOk(t, sent, th) && th.pc == LiveSend && (pc.RecordLive? || pc.LiveLookup? || pc == Done(Lost))
    ensures ThreadOk(t, sent + [th.plan.correlationId], th.(pc := pc))
  {
  }

  lemma SentMore(t: Tables, sent: seq<string>, sent': seq<string>, th: Thread)
    requires ThreadOk(t, sent, th) && (Unsent(th.pc) ==> th.plan.correlationId !in sent') && (Sent(th.pc) ==> th.plan.correlationId in sent')
    ensures ThreadOk(t, sent', th)
  {
  }

  lemma SameCorrelation(t: Tables, a: string, b: string)
    requires TablesInv(t) && a in t.signals && b in t.signals && a != b
    ensures t.signals[a].plan.correlationId != t.signals[b].plan.correlationId
  {
  }

  /** Steps that only read the ledger, outside the kill checks. */
  predicate Reading(pc: Pc) {
    pc.ReadPlan? || pc.ReadState? || pc.CheckPosition? || pc.Branch? || pc.LiveLookup?
  }

  lemma CheckingInv(digest: string -> string, s: Sys, tid: nat, env: Env)
    requires Inv(s) && tid in s.threads
    requires s.threads[tid].pc in {ReadKill, ReadDaily, ReadLosses, CheckSignal}
    ensures Inv(StepThread(digest, s, tid, env))
  {
    hide TablesInv, SentInv, DailyPnl, ConsecutiveLosses, ThreadsInv, DayOf;
    FactsOf(s, tid);
    ReadStep(s, tid, StepThread(digest, s, tid, env).threads[tid]);
  }

  lemma ReadingInv(digest: string -> string, s: Sys, tid: nat, env: Env)
    requires Inv(s) && tid in s.threads && Reading(s.threads[tid].pc)
    ensures Inv(StepThread(digest, s, tid, env))
  {
    hide TablesInv, PlanAcceptable, PaperOrder, PaperFills, LiveOrder, LiveFills, RecordExecution, RecordSignal, RecordApproval,
      UpdateSignalState, SentInv, DailyPnl, ConsecutiveLosses, ThreadsInv, HasOpen, DayOf, AckAcceptable;
    var th := s.threads[tid];
    var t := s.tables;
    FactsOf(s, tid);
    match th.pc
    case ReadPlan =>
      if th.signalId in t.signals {
        ReadStep(s, tid, StepThread(digest, s, tid, env).threads[tid]);
      } else {
        ReadStep(s, tid, th.(pc := Done(Refused)));
      }
    case ReadState =>
      assert th.signalId in t.signals ==> th.plan.signalId == th.signalId by { KeyOf(t, th.signalId); }
      ReadStep(s, tid, StepThread(digest, s, tid, env).threads[tid]);
    case CheckPosition =>
      AcceptableTradable(th.policy, env.registry, th.plan, env.now);
      ReadStep(s, tid, StepThread(digest, s, tid, env).threads[tid]);
    case Branch => ReadStep(s, tid, StepThread(digest, s, tid, env).threads[tid]);
    case LiveLookup => ReadStep(s, tid, StepThread(digest, s, tid, env).threads[tid]);
  }

  lemma StepInv(digest: string -> string, s: Sys, tid: nat, env: Env)
    requires Inv(s) && tid in s.threads
    ensures Inv(StepThread(digest, s, tid, env))
  {
    hide TablesInv, PlanAcceptable, PaperOrder, PaperFills, LiveOrder, LiveFills, RecordExecution, RecordSignal, RecordApproval,
      UpdateSignalState, SentInv, DailyPnl, ConsecutiveLosses, ThreadsInv, HasOpen, DayOf, AckAcceptable, ThreadOk, Inv;
    var th := s.threads[tid];
    var t := s.tables;
    match th.pc
    case Trip => TripInv(s, tid);
    case Record => if th.approval.None? { RecordSubmitInv(s, tid); } else { RecordApproveInv(s, tid); }
    case MarkBlocked => MarkInv(s, tid, Blocked, NotSubmitted);
    case MarkAwaiting => MarkInv(s, tid, AwaitingApproval, Waiting);
    case PaperExec => PaperStepInv(digest, s, tid, env);
    case LiveSend => SendInv(s, tid, StepThread(digest, s, tid, env).threads[tid].pc);
    case RecordUnknown => UnknownStepInv(digest, s, tid, env);
    case MarkUncertain => MarkInv(s, tid, Uncertain, TimedOut);
    case RecordLive(ack) => LiveStepInv(digest, s, tid, env, ack);
    case Done(_) =>
    case _ => if Reading(th.pc) { ReadingInv(digest, s, tid, env); } else { CheckingInv(digest, s, tid, env); }
  }

  lemma TripInv(s: Sys, tid: nat)
    requires Inv(s) && tid in s.threads
    ensures Inv(Goto(s.(tables := s.tables.(killSwitch := true)), tid, Done(Killed)))
  {
    SwitchStep(s, true);
    EndOk(s.tables.(killSwitch := true), s.sent, s.threads[tid], Killed);
    ReadStep(s.(tables := s.tables.(killSwitch := true)), tid, s.threads[tid].(pc := Done(Killed)));
  }

  lemma PaperStepInv(digest: string -> string, s: Sys, tid: nat, env: Env)
    requires Inv(s) && tid in s.threads && s.threads[tid].pc == PaperExec
    ensures Inv(StepThread(digest, s, tid, env))
  {
    hide TablesInv, PaperQuantity, PaperPrice, Coherent, RecordExecution, ThreadOk, SentInv;
    var plan := s.threads[tid].plan;
    OwnerAlone(s, tid);
    PaperCoherent(env.paper, digest, s.tables, plan, env.now);
    var order := PaperOrder(env.paper, digest, plan, env.now);
    ExecuteInv(s, tid, order, PaperFills(env.paper, digest, plan, env.now), env.now, Done(Recorded(ReportedState(order))));
  }

  lemma LiveStepInv(digest: string -> string, s: Sys, tid: nat, env: Env, ack: Ack)
    requires Inv(s) && tid in s.threads && s.threads[tid].pc == RecordLive(ack)
    ensures Inv(StepThread(digest, s, tid, env))
  {
    hide TablesInv, Coherent, RecordExecution, SentInv;
    var plan := s.threads[tid].plan;
    OwnerAlone(s, tid);
    if AckAcceptable(plan, ack) {
      LiveCoherent(s.tables, plan, ack, env.now);
      var order := LiveOrder(plan, ack, env.now);
      ExecuteInv(s, tid, order, LiveFills(plan, ack, env.now), env.now, Done(Recorded(ReportedState(order))));
    }
    FactsOf(s, tid);
    SentReceived(s.tables, s.sent, s.threads[tid]);
    LostOk(s.tables, s.sent, s.threads[tid]);
    ReadStep(s, tid, s.threads[tid].(pc := Done(Lost)));
  }

  lemma UnknownStepInv(digest: string -> string, s: Sys, tid: nat, env: Env)
    requires Inv(s) && tid in s.threads && s.threads[tid].pc == RecordUnknown
    ensures Inv(StepThread(digest, s, tid, env))
  {
    hide TablesInv, Coherent, SentInv, FillsInsertable, PositionInsertable;
    var plan := s.threads[tid].plan;
    OwnerAlone(s, tid);
    var order := LiveOrder(plan, UnknownAck(plan), env.now);
    var r := RecordExecution(s.tables, order, [], env.now);
    if r.Ok? {
      LiveCoherent(s.tables, plan, UnknownAck(plan), env.now);
      assert LiveFills(plan, UnknownAck(plan), env.now) == [];
      ExecuteInv(s, tid, order, [], env.now, MarkUncertain);
    } else {
      ReadStep(s, tid, s.threads[tid].(pc := Done(Lost)));
    }
  }

  /** The switch is read by calls but carries no other fact. */
  lemma SwitchStep(s: Sys, active: bool)
    requires Inv(s)
    ensures Inv(s.(tables := s.tables.(killSwitch := active)))
  {
    hide ThreadsInv, SentInv;
    SameRows(s, s.tables.(killSwitch := active));
  }

  lemma CloseStep(s: Sys, id: string, price: real, at: int)
    requires Inv(s) && ClosePosition(s.tables, id, price, at).Ok?
    ensures Inv(s.(tables := ClosePosition(s.tables, id, price, at).value))
  {
    ClosePositionInv(s.tables, id, price, at);
    SameRows(s, ClosePosition(s.tables, id, price, at).value);
  }

  lemma SameRows(s: Sys, t': Tables)
    requires Inv(s) && t'.signals == s.tables.signals && t'.approvals == s.tables.approvals
    requires t'.orders == s.tables.orders && t'.fills == s.tables.fills && TablesInv(t')
    ensures Inv(s.(tables := t'))
  {
    hide TablesInv, ThreadOk;
    forall u | u in s.threads ensures ThreadOk(t', s.sent, s.threads[u]) {
      SameSignals(s.tables, t', s.sent, s.threads[u]);
    }
    forall i | 0 <= i < |s.sent| ensures CorrelationUsed(t', s.sent[i]) {
      CorrelationStays(s.tables, t', "", s.sent[i]);
    }
  }

  lemma ApplyInv(digest: string -> string, s: Sys, a: Action)
    requires Inv(s)
    ensures Inv(Apply(digest, s, a))
  {
    hide TablesInv, StepThread, ClosePosition;
    match a
    case Start(tid, th) =>
    case Advance(tid, env) => if tid in s.threads { StepInv(digest, s, tid, env); }
    case Close(id, price, at) => if ClosePosition(s.tables, id, price, at).Ok? { CloseStep(s, id, price, at); }
    case Operator(active) => SwitchStep(s, active);
  }

  /** Safety: after any interleaving of any calls, there is at most one open position per
      security, at most one order per signal and per correlation id, quantities agree across
      positions, orders and fills, an order exists exactly when the signal's state says so, and
      no correlation id was sent to the broker twice. */
  lemma {:induction false} EveryRunSafe(digest: string -> string, actions: seq<Action>)
    ensures Inv(Run(digest, IDLE, actions))
  {
    hide Apply, Inv;
    if actions == [] {
      IdleInv();
    } else {
      EveryRunSafe(digest, actions[..|actions| - 1]);
      ApplyInv(digest, Run(digest, IDLE, actions[..|actions| - 1]), actions[|actions| - 1]);
    }
  }

  lemma IdleInv()
    ensures Inv(IDLE)
  {
  }
}
