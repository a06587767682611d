/** What the execution protocol promises in every run: the ledger's rows agree, no order is sent
    twice, an unresolved timeout is recorded or known to be lost, and a standing limit stops
    every call that meets it. */
module ExecutionPromises {
  import opened Outcomes
  import opened ExecutionModels
  import opened ExecutionLedger
  import opened ExecutionSafety
  import opened ExecutionController
  import opened ExecutionProtocol

  // ----- the ledger -----

  /** The protocol's invariant, spelled out on the ledger's rows. */
  lemma LedgerSafety(digest: string -> string, actions: seq<Action>)
    ensures var t := Run(digest, IDLE, actions).tables;
      && (forall i, k :: 0 <= i < k < |t.positions| && t.positions[i].state.Open? && t.positions[k].state.Open?
            ==> t.positions[i].securityId != t.positions[k].securityId)
      && (forall i, k :: 0 <= i < k < |t.orders|
            ==> t.orders[i].signalId != t.orders[k].signalId && t.orders[i].correlationId != t.orders[k].correlationId)
      && (forall i, k :: 0 <= i < |t.positions| && 0 <= k < |t.orders| && t.orders[k].signalId == t.positions[i].signalId
            ==> t.positions[i].quantity == t.orders[k].filledQuantity == SumFills(t.fills, t.orders[k].orderId))
      && (forall i :: 0 <= i < |t.positions| ==> HasOrder(t.orders, t.positions[i].signalId))
      && (forall id :: id in t.signals ==> (HasOrder(t.orders, id) <==> t.signals[id].state in {Submitted, PartiallyFilled, Filled, Uncertain}))
  {
    hide Run, SumFills, ThreadsInv, SentInv, FilledStates, FillsHeld, MatchesPlan, FillRange;
    EveryRunSafe(digest, actions);
    var t := Run(digest, IDLE, actions).tables;
    forall i | 0 <= i < |t.positions| ensures HasOrder(t.orders, t.positions[i].signalId) { assert PositionMatches(t.orders, t.positions[i]); }
    forall i, k | 0 <= i < |t.positions| && 0 <= k < |t.orders| && t.orders[k].signalId == t.positions[i].signalId
      ensures t.positions[i].quantity == t.orders[k].filledQuantity
    {
      assert PositionMatches(t.orders, t.positions[i]);
    }
  }

  /** The order asks for what its signal's plan says, no more than that is filled, and the signal's
      state says how much. */
  ghost predicate OrderShows(o: Order, row: SignalRow) {
    && o.correlationId == row.plan.correlationId && o.symbol == row.plan.symbol && o.securityId == row.plan.securityId
    && o.side == row.plan.side && o.quantity == row.plan.quantity && o.limitPrice == row.plan.limitPrice
    && 0 <= o.filledQuantity <= o.quantity && (o.filledQuantity > 0 ==> o.averageFillPrice.Some? && o.averageFillPrice.value > 0.0)
    && (row.state == Filled <==> o.filledQuantity == o.quantity)
    && (row.state == PartiallyFilled <==> 0 < o.filledQuantity < o.quantity)
    && (row.state == Submitted || row.state == Uncertain <==> o.filledQuantity == 0)
  }

  /** Rows of different tables agree in every run: orders with plans and states, positions with orders,
      and every order that filled has its position. */
  lemma RowsAgree(digest: string -> string, actions: seq<Action>)
    ensures var t := Run(digest, IDLE, actions).tables;
      && (forall i :: 0 <= i < |t.orders| ==> t.orders[i].signalId in t.signals && OrderShows(t.orders[i], t.signals[t.orders[i].signalId]))
      && (forall i, k :: 0 <= i < |t.positions| && 0 <= k < |t.orders| && t.orders[k].signalId == t.positions[i].signalId ==>
            && t.positions[i].side == t.orders[k].side && t.positions[i].symbol == t.orders[k].symbol
            && t.positions[i].securityId == t.orders[k].securityId
            && Some(t.positions[i].averageEntryPrice) == t.orders[k].averageFillPrice)
      && (forall k :: 0 <= k < |t.orders| ==>
            (t.orders[k].filledQuantity > 0 <==> exists i :: 0 <= i < |t.positions| && t.positions[i].signalId == t.orders[k].signalId))
  {
    hide Run, SumFills, ThreadsInv, SentInv;
    EveryRunSafe(digest, actions);
    var t := Run(digest, IDLE, actions).tables;
    OrdersShow(t);
    PositionsShow(t);
  }

  lemma OrdersShow(t: Tables)
    requires TablesInv(t)
    ensures forall i :: 0 <= i < |t.orders| ==> t.orders[i].signalId in t.signals && OrderShows(t.orders[i], t.signals[t.orders[i].signalId])
  {
    hide FillsOk, PositionsOk, StatesOk, FillsHeld, OrdersDistinct;
  }

  lemma PositionsShow(t: Tables)
    requires TablesInv(t)
    ensures forall i, k :: 0 <= i < |t.positions| && 0 <= k < |t.orders| && t.orders[k].signalId == t.positions[i].signalId ==>
      && t.positions[i].side == t.orders[k].side && t.positions[i].symbol == t.orders[k].symbol
      && t.positions[i].securityId == t.orders[k].securityId
      && Some(t.positions[i].averageEntryPrice) == t.orders[k].averageFillPrice && t.orders[k].filledQuantity > 0
    ensures forall k :: 0 <= k < |t.orders| ==>
      (t.orders[k].filledQuantity > 0 <==> exists i :: 0 <= i < |t.positions| && t.positions[i].signalId == t.orders[k].signalId)
  {
    hide FillsOk, StatesOk, FilledStates, SignalsOk, MatchesPlan, FillRange;
    forall i, k | 0 <= i < |t.positions| && 0 <= k < |t.orders| && t.orders[k].signalId == t.positions[i].signalId
      ensures Backs(t.orders[k], t.positions[i]) && t.positions[i].quantity > 0
    {
      var m :| 0 <= m < |t.orders| && Backs(t.orders[m], t.positions[i]);
    }
    forall k | 0 <= k < |t.orders| && t.orders[k].filledQuantity > 0
      ensures exists i :: 0 <= i < |t.positions| && t.positions[i].signalId == t.orders[k].signalId
    {
      assert HasPosition(t.positions, t.orders[k].signalId);
    }
  }

  /** No correlation id ever reaches the broker twice. */
  lemma SentOnce(digest: string -> string, actions: seq<Action>, i: nat, k: nat)
    requires i < |Run(digest, IDLE, actions).sent| && k < |Run(digest, IDLE, actions).sent|
    requires Run(digest, IDLE, actions).sent[i] == Run(digest, IDLE, actions).sent[k]
    ensures i == k
  {
    hide TablesInv, ThreadsInv, Run;
    EveryRunSafe(digest, actions);
  }

  // ----- steps of one call among others -----

  function Advances(actions: seq<Action>, tid: nat): nat {
    if actions == [] then 0
    else Advances(actions[..|actions| - 1], tid) + if actions[|actions| - 1].Advance? && actions[|actions| - 1].tid == tid then 1 else 0
  }

  lemma OtherStep(digest: string -> string, s: Sys, a: Action, tid: nat)
    requires tid in s.threads && !(a.Advance? && a.tid == tid)
    ensures var s' := Apply(digest, s, a); tid in s'.threads && s'.threads[tid] == s.threads[tid]
  {
    hide StepThread, ClosePosition;
    if a.Advance? && a.tid in s.threads { StepIsLocal(digest, s, a.tid, a.env, tid); }
  }

  /** A step changes the thread that takes it and no other. */
  lemma StepIsLocal(digest: string -> string, s: Sys, tid: nat, env: Env, other: nat)
    requires tid in s.threads && other in s.threads && other != tid
    ensures var s' := StepThread(digest, s, tid, env); other in s'.threads && s'.threads[other] == s.threads[other]
  {
    hide PlanAcceptable, PaperOrder, PaperFills, LiveOrder, LiveFills, RecordExecution, RecordSignal, RecordApproval,
      UpdateSignalState, DailyPnl, ConsecutiveLosses, AckAcceptable, HasOpen, DayOf;
  }

  lemma AdvanceIs(digest: string -> string, s: Sys, a: Action)
    requires a.Advance? && a.tid in s.threads
    ensures Apply(digest, s, a) == StepThread(digest, s, a.tid, a.env)
  {
  }

  lemma {:induction false} RunKeepsInv(digest: string -> string, s: Sys, actions: seq<Action>)
    requires Inv(s)
    ensures Inv(Run(digest, s, actions))
  {
    hide Inv, Apply;
    if actions != [] {
      RunKeepsInv(digest, s, actions[..|actions| - 1]);
      ApplyInv(digest, Run(digest, s, actions[..|actions| - 1]), actions[|actions| - 1]);
    }
  }

  // ----- timeouts -----

  /** A call whose order timed out and was not found records the unknown order, unless its id is
      taken: then the call is lost and the tables stay as they are. */
  lemma TimeoutStep(digest: string -> string, s: Sys, tid: nat, env: Env)
    requires Inv(s) && tid in s.threads && s.threads[tid].pc == RecordUnknown
    ensures var s', plan := StepThread(digest, s, tid, env), s.threads[tid].plan;
      && s'.threads.Keys == s.threads.Keys && s'.threads[tid].plan == plan
      && s'.threads[tid].pc == (if NameTaken(s.tables, plan) then Done(Lost) else MarkUncertain)
      && (NameTaken(s.tables, plan) ==> s'.tables == s.tables)
  {
    hide TablesInv, RecordExecution, ThreadsInv, SentInv;
    FactsOf(s, tid);
    UnknownInsertable(s.tables, s.threads[tid].plan, env.now);
  }

  lemma MarkStep(digest: string -> string, s: Sys, tid: nat, env: Env)
    requires Inv(s) && tid in s.threads && s.threads[tid].pc == MarkUncertain
    ensures var s' := StepThread(digest, s, tid, env);
      tid in s'.threads && s'.threads[tid].pc == Done(TimedOut) && s'.threads[tid].plan == s.threads[tid].plan
  {
    hide TablesInv, ThreadsInv, SentInv;
    FactsOf(s, tid);
  }

  /** A call that is done stays as it is, and one that is about to mark its signal does so at its
      next step. */
  lemma {:induction false} AfterTimeout(digest: string -> string, s: Sys, actions: seq<Action>, tid: nat)
    requires Inv(s) && tid in s.threads && (s.threads[tid].pc == MarkUncertain || s.threads[tid].pc.Done?)
    ensures var s' := Run(digest, s, actions);
      && tid in s'.threads && s'.threads[tid].plan == s.threads[tid].plan
      && s'.threads[tid].pc == (if s.threads[tid].pc == MarkUncertain && Advances(actions, tid) > 0 then Done(TimedOut) else s.threads[tid].pc)
  {
    hide Apply, StepThread, Inv;
    if actions != [] {
      var n := |actions| - 1;
      AfterTimeout(digest, s, actions[..n], tid);
      RunKeepsInv(digest, s, actions[..n]);
      var mid, a := Run(digest, s, actions[..n]), actions[n];
      if a.Advance? && a.tid == tid {
        AdvanceIs(digest, mid, a);
        if mid.threads[tid].pc == MarkUncertain { MarkStep(digest, mid, tid, a.env); } else { DoneStays(digest, mid, tid, a.env); }
      } else {
        OtherStep(digest, mid, a, tid);
      }
    }
  }

  lemma DoneStays(digest: string -> string, s: Sys, tid: nat, env: Env)
    requires tid in s.threads && s.threads[tid].pc.Done?
    ensures StepThread(digest, s, tid, env) == s
  {
  }

  /** Exactly one order of the signal: unknown and unfilled, without a fill or a position. */
  ghost predicate OneUnknownOrder(t: Tables, plan: Plan) {
    && (exists k :: 0 <= k < |t.orders| && IsUnknown(t, plan, k)
          && forall i :: 0 <= i < |t.orders| && t.orders[i].signalId == plan.signalId ==> i == k)
    && (forall i :: 0 <= i < |t.positions| ==> t.positions[i].signalId != plan.signalId)
  }

  ghost predicate IsUnknown(t: Tables, plan: Plan, k: nat)
    requires k < |t.orders|
  {
    && t.orders[k].signalId == plan.signalId && t.orders[k].correlationId == plan.correlationId
    && t.orders[k].state == Unknown && t.orders[k].filledQuantity == 0
    && forall f :: 0 <= f < |t.fills| ==> t.fills[f].orderId != t.orders[k].orderId
  }

  ghost predicate NoTrace(t: Tables, plan: Plan) {
    && (forall i :: 0 <= i < |t.orders| ==> t.orders[i].signalId != plan.signalId && t.orders[i].correlationId != plan.correlationId)
    && (forall i :: 0 <= i < |t.positions| ==> t.positions[i].signalId != plan.signalId)
  }

  lemma UnknownIsOne(t: Tables, plan: Plan)
    requires TablesInv(t) && UnknownOrder(t, plan)
    ensures OneUnknownOrder(t, plan)
  {
    hide SumFills, StatesOk, SignalsOk;
    var k :| 0 <= k < |t.orders| && t.orders[k].signalId == plan.signalId && t.orders[k].state == Unknown
      && t.orders[k].filledQuantity == 0 && t.orders[k].correlationId == plan.correlationId;
    SumFillsZero(t.fills, t.orders[k].orderId);
    assert IsUnknown(t, plan, k);
    forall i | 0 <= i < |t.positions| ensures t.positions[i].signalId != plan.signalId {
      assert PositionMatches(t.orders, t.positions[i]);
    }
  }

  lemma ReceivedNoTrace(t: Tables, plan: Plan)
    requires TablesInv(t) && Row(t, plan, Received)
    ensures NoTrace(t, plan)
  {
    hide FillsOk, StatesOk, SignalsOk, OrdersOk;
    forall i | 0 <= i < |t.orders| ensures t.orders[i].signalId != plan.signalId && t.orders[i].correlationId != plan.correlationId {
      NoOrderYet(t, plan, i);
    }
    forall i | 0 <= i < |t.positions| ensures t.positions[i].signalId != plan.signalId {
      assert PositionMatches(t.orders, t.positions[i]);
    }
  }

  lemma TimeoutRows(s: Sys, tid: nat)
    requires Inv(s) && tid in s.threads && s.threads[tid].pc in {MarkUncertain, Done(TimedOut), Done(Lost)}
    ensures var t, plan, pc := s.tables, s.threads[tid].plan, s.threads[tid].pc;
      && plan.correlationId in s.sent
      && (pc == MarkUncertain ==> Row(t, plan, Submitted) && OneUnknownOrder(t, plan))
      && (pc == Done(TimedOut) ==> Row(t, plan, Uncertain) && OneUnknownOrder(t, plan))
      && (pc == Done(Lost) ==> Row(t, plan, Received) && NoTrace(t, plan))
  {
    hide TablesInv, ThreadsInv, SentInv, OneUnknownOrder, NoTrace;
    FactsOf(s, tid);
    if s.threads[tid].pc == Done(Lost) { ReceivedNoTrace(s.tables, s.threads[tid].plan); }
    else { UnknownIsOne(s.tables, s.threads[tid].plan); }
  }

  /** An unresolved timeout, seen from the step that would record it, in any run and whatever
      happens before and after. If the id of the unknown order is free, that signal has exactly one
      order for ever after, unknown, unfilled, without fill or position, and it is uncertain from
      the call's next step on. If the id is taken, nothing is recorded: the signal stays received,
      without order or position, although its correlation id was sent. */
  lemma TimeoutStaysUncertain(digest: string -> string, before: seq<Action>, s: Sys, tid: nat, env: Env, after: seq<Action>)
    requires s == Run(digest, IDLE, before) && tid in s.threads && s.threads[tid].pc == RecordUnknown
    ensures var s', plan := Run(digest, StepThread(digest, s, tid, env), after), s.threads[tid].plan;
      && plan.correlationId in s'.sent
      && (!NameTaken(s.tables, plan) ==> OneUnknownOrder(s'.tables, plan))
      && (!NameTaken(s.tables, plan) ==> Row(s'.tables, plan, if Advances(after, tid) > 0 then Uncertain else Submitted))
      && (NameTaken(s.tables, plan) ==> Row(s'.tables, plan, Received) && NoTrace(s'.tables, plan))
  {
    hide Run, StepThread, Inv, OneUnknownOrder, NoTrace, NameTaken, Row, Advances;
    EveryRunSafe(digest, before);
    TimeoutStep(digest, s, tid, env);
    StepInv(digest, s, tid, env);
    var next := StepThread(digest, s, tid, env);
    AfterTimeout(digest, next, after, tid);
    RunKeepsInv(digest, next, after);
    TimeoutRows(Run(digest, next, after), tid);
  }


  /** Without steps of its own a call stays where it is. */
  lemma {:induction false} StandsStill(digest: string -> string, s: Sys, actions: seq<Action>, tid: nat)
    requires tid in s.threads && Advances(actions, tid) == 0
    ensures var s' := Run(digest, s, actions); tid in s'.threads && s'.threads[tid] == s.threads[tid]
  {
    hide Apply;
    if actions != [] {
      StandsStill(digest, s, actions[..|actions| - 1], tid);
      OtherStep(digest, Run(digest, s, actions[..|actions| - 1]), actions[|actions| - 1], tid);
    }
  }

  /** Where the lookup after a timeout leads. */
  lemma LookupStep(digest: string -> string, s: Sys, tid: nat, env: Env)
    requires tid in s.threads && s.threads[tid].pc == LiveLookup
    ensures var s', plan := StepThread(digest, s, tid, env), s.threads[tid].plan;
      && s'.tables == s.tables && s'.sent == s.sent && tid in s'.threads && s'.threads[tid].plan == plan
      && (s'.threads[tid].pc == RecordUnknown <==> env.answer == NotFound)
      && (s'.threads[tid].pc == Done(Lost) <==> Unresolved(plan, env.answer))
      && (s'.threads[tid].pc.RecordLive? <==> env.answer.Acked? && AckAcceptable(plan, env.answer.ack))
  {
    hide AckAcceptable;
  }

  /** The lookup raised, or answered with something that does not fit the plan. */
  predicate Unresolved(plan: Plan, answer: Answer) {
    answer == Timeout || answer == Crash || (answer.Acked? && !AckAcceptable(plan, answer.ack))
  }

  lemma RecordLiveEnds(digest: string -> string, s: Sys, tid: nat, env: Env)
    requires tid in s.threads && s.threads[tid].pc.RecordLive?
    ensures var s' := StepThread(digest, s, tid, env);
      && tid in s'.threads && s'.threads[tid].plan == s.threads[tid].plan
      && s'.threads[tid].pc.Done? && (s'.threads[tid].pc.outcome.Recorded? || s'.threads[tid].pc.outcome.Lost?)
  {
    hide AckAcceptable, RecordExecution, LiveOrder, LiveFills;
  }

  /** Not a lost call's ledger: the signal is still received and nothing else speaks of it. */
  ghost predicate OffTheLedger(t: Tables, plan: Plan) {
    Row(t, plan, Received) && NoTrace(t, plan)
  }

  /** A timeout, seen from the lookup that is to resolve it, with the call's next step at any later
      time and anything in between and after. The call ends uncertain with exactly one unknown order
      if and only if the lookup finds nothing and the id of the unknown order is free when it is
      recorded. If the lookup raises or does not fit, or the id is taken, the signal stays received
      for ever, without order or position, although its correlation id was sent. */
  lemma TimeoutResolution(digest: string -> string, before: seq<Action>, s: Sys, tid: nat, look: Env, between: seq<Action>,
                          m: Sys, record: Env, after: seq<Action>)
    requires s == Run(digest, IDLE, before) && tid in s.threads && s.threads[tid].pc == LiveLookup
    requires m == Run(digest, StepThread(digest, s, tid, look), between) && Advances(between, tid) == 0
    ensures tid in m.threads
    ensures var f, plan := Run(digest, StepThread(digest, m, tid, record), after), s.threads[tid].plan;
      && tid in f.threads && f.threads[tid].plan == plan && plan.correlationId in f.sent
      && (f.threads[tid].pc in {MarkUncertain, Done(TimedOut)} <==> look.answer == NotFound && !NameTaken(m.tables, plan))
      && (f.threads[tid].pc in {MarkUncertain, Done(TimedOut)} ==> OneUnknownOrder(f.tables, plan))
      && (f.threads[tid].pc in {MarkUncertain, Done(TimedOut)} ==>
            Row(f.tables, plan, if Advances(after, tid) > 0 then Uncertain else Submitted))
      && (Unresolved(plan, look.answer) || (look.answer == NotFound && NameTaken(m.tables, plan)) ==> OffTheLedger(f.tables, plan))
  {
    hide Run, StepThread, Inv, OneUnknownOrder, NoTrace, NameTaken, Row, Advances, AckAcceptable;
    var plan := s.threads[tid].plan;
    EveryRunSafe(digest, before);
    CorrelationSent(s, tid);
    LookupStep(digest, s, tid, look);
    StepInv(digest, s, tid, look);
    StandsStill(digest, StepThread(digest, s, tid, look), between, tid);
    RunKeepsInv(digest, StepThread(digest, s, tid, look), between);
    SentGrows(digest, StepThread(digest, s, tid, look), between, plan.correlationId);
    StepInv(digest, m, tid, record);
    if m.threads[tid].pc == RecordUnknown {
      TimeoutStep(digest, m, tid, record);
    } else if m.threads[tid].pc.RecordLive? {
      RecordLiveEnds(digest, m, tid, record);
    } else {
      DoneStays(digest, m, tid, record);
    }
    var next := StepThread(digest, m, tid, record);
    StepSent(digest, m, tid, record, plan.correlationId);
    AfterTimeout(digest, next, after, tid);
    RunKeepsInv(digest, next, after);
    SentGrows(digest, next, after, plan.correlationId);
    var f := Run(digest, next, after);
    if f.threads[tid].pc in {MarkUncertain, Done(TimedOut), Done(Lost)} { TimeoutRows(f, tid); }
  }

  lemma CorrelationSent(s: Sys, tid: nat)
    requires Inv(s) && tid in s.threads && s.threads[tid].pc == LiveLookup
    ensures s.threads[tid].plan.correlationId in s.sent
  {
    hide TablesInv, SentInv;
    FactsOf(s, tid);
  }

  lemma StepSent(digest: string -> string, s: Sys, tid: nat, env: Env, c: string)
    requires tid in s.threads && c in s.sent
    ensures c in StepThread(digest, s, tid, env).sent
  {
    hide PlanAcceptable, PaperOrder, PaperFills, LiveOrder, LiveFills, RecordExecution, RecordSignal, RecordApproval,
      UpdateSignalState, DailyPnl, ConsecutiveLosses, AckAcceptable, HasOpen, DayOf;
  }

  lemma {:induction false} SentGrows(digest: string -> string, s: Sys, actions: seq<Action>, c: string)
    requires c in s.sent
    ensures c in Run(digest, s, actions).sent
  {
    hide StepThread, ClosePosition;
    if actions != [] {
      var n := |actions| - 1;
      SentGrows(digest, s, actions[..n], c);
      var mid, a := Run(digest, s, actions[..n]), actions[n];
      if a.Advance? && a.tid in mid.threads { StepSent(digest, mid, a.tid, a.env, c); }
    }
  }

  // ----- what was sent is accounted for -----

  /** The call handed its order to the broker. */
  predicate AfterSend(pc: Pc) {
    Sent(pc) || (pc.Done? && pc.outcome.Recorded?)
  }

  ghost predicate HasSender(s: Sys, c: string) {
    exists tid :: tid in s.threads && s.threads[tid].plan.correlationId == c && AfterSend(s.threads[tid].pc)
  }

  lemma StepSends(digest: string -> string, s: Sys, tid: nat, env: Env)
    requires Inv(s) && tid in s.threads
    ensures var s' := StepThread(digest, s, tid, env);
      && tid in s'.threads
      && (AfterSend(s.threads[tid].pc) ==> AfterSend(s'.threads[tid].pc) && s'.threads[tid].plan == s.threads[tid].plan)
      && (s'.sent == s.sent
          || (s'.sent == s.sent + [s'.threads[tid].plan.correlationId] && AfterSend(s'.threads[tid].pc)))
  {
    hide PlanAcceptable, PaperOrder, PaperFills, LiveOrder, LiveFills, RecordExecution, RecordSignal, RecordApproval,
      UpdateSignalState, DailyPnl, ConsecutiveLosses, AckAcceptable, HasOpen, DayOf, Inv;
    if s.threads[tid].pc == MarkUncertain { MarkStep(digest, s, tid, env); }
  }

  lemma SenderStays(digest: string -> string, s: Sys, a: Action, c: string)
    requires Inv(s) && HasSender(s, c)
    ensures HasSender(Apply(digest, s, a), c)
  {
    hide StepThread, AfterSend, Apply, Inv;
    var tid :| tid in s.threads && s.threads[tid].plan.correlationId == c && AfterSend(s.threads[tid].pc);
    if a.Advance? && a.tid == tid {
      StepSends(digest, s, tid, a.env);
      AdvanceIs(digest, s, a);
    } else {
      OtherStep(digest, s, a, tid);
    }
    assert tid in Apply(digest, s, a).threads;
  }

  lemma {:induction false} Senders(digest: string -> string, actions: seq<Action>, c: string)
    requires c in Run(digest, IDLE, actions).sent
    ensures HasSender(Run(digest, IDLE, actions), c)
  {
    hide StepThread, ClosePosition, AfterSend, HasSender, Inv;
    if actions != [] {
      var n := |actions| - 1;
      EveryRunSafe(digest, actions[..n]);
      var mid, a := Run(digest, IDLE, actions[..n]), actions[n];
      if c in mid.sent {
        Senders(digest, actions[..n], c);
        SenderStays(digest, mid, a, c);
      } else {
        NewSender(digest, mid, a, c);
      }
    }
  }

  lemma NewSender(digest: string -> string, s: Sys, a: Action, c: string)
    requires Inv(s) && c !in s.sent && c in Apply(digest, s, a).sent
    ensures HasSender(Apply(digest, s, a), c)
  {
    hide StepThread, ClosePosition, AfterSend, Inv;
    StepSends(digest, s, a.tid, a.env);
    assert a.tid in Apply(digest, s, a).threads;
  }

  predicate OrderFor(t: Tables, c: string) {
    exists i :: 0 <= i < |t.orders| && t.orders[i].correlationId == c
  }

  lemma PlacedOrder(t: Tables, plan: Plan)
    requires TablesInv(t) && Placed(t, plan)
    ensures OrderFor(t, plan.correlationId)
  {
    hide FillsOk, PositionsOk, StatesOk, SignalsOk;
    var i :| 0 <= i < |t.orders| && t.orders[i].signalId == plan.signalId;
    assert t.orders[i].correlationId == plan.correlationId;
  }

  lemma UnknownPlaced(t: Tables, plan: Plan)
    requires UnknownOrder(t, plan)
    ensures OrderFor(t, plan.correlationId)
  {
  }

  /** Every order ever sent has a call that sent it, and the ledger has an order row under its
      correlation id if and only if that call recorded it or timed out (or is about to mark it
      uncertain). In particular a call that ends lost after the send, for a refused or missing
      acknowledgement, an order id in use or a position already open, leaves the broker's order off
      the ledger, its signal still received. */
  lemma SentAccounted(digest: string -> string, actions: seq<Action>, s: Sys, c: string)
    requires s == Run(digest, IDLE, actions) && c in s.sent
    ensures HasSender(s, c)
    ensures forall tid :: tid in s.threads && s.threads[tid].plan.correlationId == c && AfterSend(s.threads[tid].pc) ==>
      var th := s.threads[tid];
      && (OrderFor(s.tables, c) <==> th.pc == MarkUncertain || th.pc == Done(TimedOut) || (th.pc.Done? && th.pc.outcome.Recorded?))
      && (th.pc == Done(Lost) ==> OffTheLedger(s.tables, th.plan))
  {
    hide Run, HasSender, OrderFor, OffTheLedger, Inv;
    Senders(digest, actions, c);
    EveryRunSafe(digest, actions);
    forall tid | tid in s.threads && s.threads[tid].plan.correlationId == c && AfterSend(s.threads[tid].pc)
      ensures var th := s.threads[tid];
        && (OrderFor(s.tables, c) <==> th.pc == MarkUncertain || th.pc == Done(TimedOut) || (th.pc.Done? && th.pc.outcome.Recorded?))
        && (th.pc == Done(Lost) ==> OffTheLedger(s.tables, th.plan))
    {
      SenderRows(s, tid);
    }
  }

  lemma SenderRows(s: Sys, tid: nat)
    requires Inv(s) && tid in s.threads && AfterSend(s.threads[tid].pc)
    ensures var th := s.threads[tid];
      && (OrderFor(s.tables, th.plan.correlationId) <==>
            th.pc == MarkUncertain || th.pc == Done(TimedOut) || (th.pc.Done? && th.pc.outcome.Recorded?))
      && (th.pc == Done(Lost) ==> OffTheLedger(s.tables, th.plan))
  {
    hide TablesInv, ThreadsInv, SentInv, NoTrace, UnknownOrder, Placed, Row;
    FactsOf(s, tid);
    var th := s.threads[tid];
    if th.pc.Done? && th.pc.outcome.Recorded? {
      PlacedOrder(s.tables, th.plan);
    } else if th.pc == MarkUncertain || th.pc == Done(TimedOut) {
      UnknownPlaced(s.tables, th.plan);
    } else {
      ReceivedNoTrace(s.tables, th.plan);
      NoTraceNoOrder(s.tables, th.plan);
    }
  }

  lemma NoTraceNoOrder(t: Tables, plan: Plan)
    requires NoTrace(t, plan)
    ensures !OrderFor(t, plan.correlationId)
  {
  }

  // ----- runs in which the timeout is lost -----

  lemma RunOne(digest: string -> string, s: Sys, actions: seq<Action>, a: Action)
    ensures Run(digest, s, actions + [a]) == Apply(digest, Run(digest, s, actions), a)
  {
    hide Apply;
    assert (actions + [a])[..|actions|] == actions;
  }

  lemma {:induction false} RunConcat(digest: string -> string, s: Sys, actions: seq<Action>, more: seq<Action>)
    ensures Run(digest, s, actions + more) == Run(digest, Run(digest, s, actions), more)
  {
    hide Apply;
    if more == [] {
      assert actions + more == actions;
    } else {
      var n := |more| - 1;
      RunConcat(digest, s, actions, more[..n]);
      assert actions + more == (actions + more[..n]) + [more[n]];
      RunOne(digest, s, actions + more[..n], more[n]);
    }
  }

  function Repeat(a: Action, n: nat): seq<Action> {
    if n == 0 then [] else Repeat(a, n - 1) + [a]
  }

  /** A later place replaces an earlier one. */
  lemma Moved(s: Sys, t: Tables, tid: nat, first: Pc, second: Pc)
    requires tid in s.threads
    ensures tid in Goto(s, tid, first).threads && Goto(s, tid, first).threads[tid] == s.threads[tid].(pc := first)
    ensures Goto(Goto(s, tid, first).(tables := t), tid, second) == Goto(s.(tables := t), tid, second)
  {
    var th := s.threads[tid];
    assert s.threads[tid := th.(pc := first)][tid := th.(pc := second)] == s.threads[tid := th.(pc := second)];
  }

  /** One more step of the call, with the state it leads to. */
  lemma NextStep(digest: string -> string, s: Sys, tid: nat, env: Env, n: nat, t: Sys)
    requires Run(digest, s, Repeat(Advance(tid, env), n)) == t && tid in t.threads
    ensures Run(digest, s, Repeat(Advance(tid, env), n + 1)) == StepThread(digest, t, tid, env)
  {
    hide StepThread;
    RunOne(digest, s, Repeat(Advance(tid, env), n), Advance(tid, env));
  }

  lemma NoStep(digest: string -> string, s: Sys, a: Action)
    ensures Run(digest, s, Repeat(a, 0)) == s
  {
  }

  predicate NothingLost(s: Sys, policy: Policy) {
    s.tables.positions == [] && !s.tables.killSwitch && policy.Valid()
  }

  lemma FourChecks(digest: string -> string, s: Sys, tid: nat, env: Env)
    requires tid in s.threads && s.threads[tid].pc == ReadKill && s.threads[tid].approval.None?
    requires NothingLost(s, s.threads[tid].policy) && s.threads[tid].plan.signalId !in s.tables.signals
    ensures Run(digest, s, Repeat(Advance(tid, env), 4)) == Goto(s, tid, CheckPosition)
  {
    hide Run, Repeat, StepThread, Goto;
    NoStep(digest, s, Advance(tid, env));
    NextStep(digest, s, tid, env, 0, s);
    KillStep(digest, s, tid, env);
    Moved(s, s.tables, tid, ReadDaily, ReadLosses);
    NextStep(digest, s, tid, env, 1, Goto(s, tid, ReadDaily));
    DailyStep(digest, s, tid, env);
    Moved(s, s.tables, tid, ReadLosses, CheckSignal);
    NextStep(digest, s, tid, env, 2, Goto(s, tid, ReadLosses));
    LossStep(digest, s, tid, env);
    Moved(s, s.tables, tid, CheckSignal, CheckPosition);
    NextStep(digest, s, tid, env, 3, Goto(s, tid, CheckSignal));
    SignalStep(digest, s, tid, env);
  }

  lemma KillStep(digest: string -> string, s: Sys, tid: nat, env: Env)
    requires tid in s.threads && s.threads[tid].pc == ReadKill && !s.tables.killSwitch
    ensures StepThread(digest, s, tid, env) == Goto(s, tid, ReadDaily)
  {
  }

  lemma DailyStep(digest: string -> string, s: Sys, tid: nat, env: Env)
    requires tid in s.threads && NothingLost(s, s.threads[tid].policy)
    ensures tid in Goto(s, tid, ReadDaily).threads
    ensures StepThread(digest, Goto(s, tid, ReadDaily), tid, env) == Goto(s, tid, ReadLosses)
  {
    Moved(s, s.tables, tid, ReadDaily, ReadLosses);
  }

  lemma LossStep(digest: string -> string, s: Sys, tid: nat, env: Env)
    requires tid in s.threads && NothingLost(s, s.threads[tid].policy) && s.threads[tid].approval.None?
    ensures tid in Goto(s, tid, ReadLosses).threads
    ensures StepThread(digest, Goto(s, tid, ReadLosses), tid, env) == Goto(s, tid, CheckSignal)
  {
    Moved(s, s.tables, tid, ReadLosses, CheckSignal);
  }

  lemma SignalStep(digest: string -> string, s: Sys, tid: nat, env: Env)
    requires tid in s.threads && s.threads[tid].plan.signalId !in s.tables.signals
    ensures tid in Goto(s, tid, CheckSignal).threads
    ensures StepThread(digest, Goto(s, tid, CheckSignal), tid, env) == Goto(s, tid, CheckPosition)
  {
    Moved(s, s.tables, tid, CheckSignal, CheckPosition);
  }

  lemma PositionStep(digest: string -> string, s: Sys, tid: nat, env: Env)
    requires tid in s.threads && s.tables.positions == []
    requires PlanAcceptable(s.threads[tid].policy, env.registry, s.threads[tid].plan, env.now)
    ensures tid in Goto(s, tid, CheckPosition).threads
    ensures StepThread(digest, Goto(s, tid, CheckPosition), tid, env) == Goto(s, tid, Record)
  {
    hide PlanAcceptable;
    Moved(s, s.tables, tid, CheckPosition, Record);
  }

  lemma RecordStep(digest: string -> string, s: Sys, tid: nat, env: Env, t: Tables)
    requires tid in s.threads && s.threads[tid].approval.None? && RecordSignal(s.tables, s.threads[tid].plan, Received) == Ok(t)
    ensures tid in Goto(s, tid, Record).threads
    ensures StepThread(digest, Goto(s, tid, Record), tid, env) == Goto(s.(tables := t), tid, Branch)
  {
    hide RecordSignal;
    Moved(s, t, tid, Record, Branch);
  }

  lemma BranchStep(digest: string -> string, s: Sys, tid: nat, env: Env)
    requires tid in s.threads && NextAfterRecord(s.threads[tid].policy) == LiveSend
    ensures tid in Goto(s, tid, Branch).threads
    ensures StepThread(digest, Goto(s, tid, Branch), tid, env) == Goto(s, tid, LiveSend)
  {
    hide NextAfterRecord;
    Moved(s, s.tables, tid, Branch, LiveSend);
  }

  /** A submission that no gate stops arrives at the broker after seven steps of its own. */
  lemma SevenSteps(digest: string -> string, s: Sys, tid: nat, env: Env, t: Tables)
    requires tid in s.threads && s.threads[tid].pc == ReadKill && s.threads[tid].approval.None?
    requires NextAfterRecord(s.threads[tid].policy) == LiveSend && NothingLost(s, s.threads[tid].policy)
    requires PlanAcceptable(s.threads[tid].policy, env.registry, s.threads[tid].plan, env.now)
    requires s.threads[tid].plan.signalId !in s.tables.signals && RecordSignal(s.tables, s.threads[tid].plan, Received) == Ok(t)
    ensures Run(digest, s, Repeat(Advance(tid, env), 7)) == Goto(s.(tables := t), tid, LiveSend)
  {
    hide PlanAcceptable, RecordSignal, Run, Repeat, StepThread, Goto, NextAfterRecord;
    FourChecks(digest, s, tid, env);
    PositionStep(digest, s, tid, env);
    NextStep(digest, s, tid, env, 4, Goto(s, tid, CheckPosition));
    RecordStep(digest, s, tid, env, t);
    NextStep(digest, s, tid, env, 5, Goto(s, tid, Record));
    var recorded := s.(tables := t);
    BranchStep(digest, recorded, tid, env);
    NextStep(digest, s, tid, env, 6, Goto(recorded, tid, Branch));
  }

  const LIVE := Policy(LiveAutomatic, 10, 0, 0, 1, 10.0, 1.0, 1.0, 1, true, true)

  function SamplePlan(signalId: string, correlationId: string): Plan {
    Plan(signalId, correlationId, "NIFTY", "7", Buy, 1, 1.0, 1.0, 0, 0, 1, 1, Some(false), true, "v1")
  }

  function SampleThread(plan: Plan): Thread {
    Thread(LIVE, plan.signalId, plan, None, ReadKill)
  }

  function SampleEnv(answer: Answer): Env {
    Env(0, map["NIFTY" := "7"], PaperConfig(0.0, 1.0), answer)
  }

  function Submission(tid: nat, plan: Plan): seq<Action> {
    [Start(tid, SampleThread(plan))] + Repeat(Advance(tid, SampleEnv(Crash)), 7)
  }

  /** The broker names its order for `c1` "unknown-c2" ... */
  function FirstPart(): seq<Action> {
    Submission(0, SamplePlan("s1", "c1"))
    + [Advance(0, SampleEnv(Acked(Ack("unknown-c2", "c1", Acknowledged, 0, None))))] + [Advance(0, SampleEnv(Crash))]
  }

  function TimeoutPart(tid: nat): seq<Action> {
    [Advance(tid, SampleEnv(Timeout)), Advance(tid, SampleEnv(NotFound))]
  }

  /** ... then the order for `c2` times out and is not found. */
  function CollidingRun(): seq<Action> {
    FirstPart() + Submission(1, SamplePlan("s2", "c2")) + TimeoutPart(1)
  }

  lemma Submits(digest: string -> string, s: Sys, tid: nat, plan: Plan, t: Tables)
    requires tid !in s.threads && NothingLost(s, LIVE) && plan.signalId !in s.tables.signals
    requires PlanAcceptable(LIVE, SampleEnv(Crash).registry, plan, 0) && RecordSignal(s.tables, plan, Received) == Ok(t)
    ensures Run(digest, s, Submission(tid, plan)) == Put(s.(tables := t), tid, SampleThread(plan).(pc := LiveSend))
  {
    hide PlanAcceptable, RecordSignal, Repeat, StepThread;
    var th, env := SampleThread(plan), SampleEnv(Crash);
    var started := Put(s, tid, th);
    NoStep(digest, s, Start(tid, th));
    assert [] + [Start(tid, th)] == [Start(tid, th)];
    RunOne(digest, s, [], Start(tid, th));
    RunConcat(digest, s, [Start(tid, th)], Repeat(Advance(tid, env), 7));
    SevenSteps(digest, started, tid, env, t);
    assert s.threads[tid := th][tid := th.(pc := LiveSend)] == s.threads[tid := th.(pc := LiveSend)];
  }

  lemma SampleAcceptable(signalId: string, correlationId: string, answer: Answer)
    requires signalId != "" && correlationId != ""
    ensures PlanAcceptable(LIVE, SampleEnv(answer).registry, SamplePlan(signalId, correlationId), 0) && LIVE.Valid()
  {
  }

  lemma SendStep(digest: string -> string, s: Sys, tid: nat, ack: Ack)
    requires tid in s.threads && s.threads[tid].pc == LiveSend && AckAcceptable(s.threads[tid].plan, ack)
    ensures StepThread(digest, s, tid, SampleEnv(Acked(ack)))
         == Goto(s.(sent := s.sent + [s.threads[tid].plan.correlationId]), tid, RecordLive(ack))
  {
    hide AckAcceptable;
  }

  lemma RecordLiveStep(digest: string -> string, s: Sys, tid: nat, ack: Ack, t: Tables)
    requires tid in s.threads && AckAcceptable(s.threads[tid].plan, ack) && ack.filledQuantity == 0
    requires RecordExecution(s.tables, LiveOrder(s.threads[tid].plan, ack, 0), [], 0) == Ok(t)
    ensures tid in Goto(s, tid, RecordLive(ack)).threads
    ensures var s' := StepThread(digest, Goto(s, tid, RecordLive(ack)), tid, SampleEnv(Crash));
      s'.tables == t && s'.sent == s.sent && s'.threads.Keys == s.threads.Keys
  {
    hide AckAcceptable, RecordExecution, LiveOrder;
  }

  /** An acknowledged, unfilled first order is recorded under the broker's id. */
  lemma FirstOrder(t: Tables, plan: Plan, ack: Ack)
    requires t.orders == [] && Row(t, plan, Received) && Tradable(plan)
    requires AckAcceptable(plan, ack) && ack.filledQuantity == 0
    ensures var r := RecordExecution(t, LiveOrder(plan, ack, 0), [], 0);
      && r.Ok? && r.value.orders == [LiveOrder(plan, ack, 0)] && r.value.positions == t.positions && r.value.killSwitch == t.killSwitch
      && r.value.signals == t.signals[plan.signalId := SignalRow(plan, Submitted)]
  {
  }

  /** After the first call: one order, under the id that the second would need. */
  lemma FirstCall(digest: string -> string, s: Sys)
    requires s == Run(digest, IDLE, FirstPart())
    ensures s.threads.Keys == {0} && s.sent == ["c1"] && NothingLost(s, LIVE)
    ensures s.tables.signals == map["s1" := SignalRow(SamplePlan("s1", "c1"), Submitted)]
    ensures |s.tables.orders| == 1 && s.tables.orders[0].orderId == "unknown-c2"
  {
    hide PlanAcceptable, Submission, Run, StepThread, RecordExecution, LiveOrder;
    var plan, first := SamplePlan("s1", "c1"), Submission(0, SamplePlan("s1", "c1"));
    var ack := Ack("unknown-c2", "c1", Acknowledged, 0, None);
    var a, b := Advance(0, SampleEnv(Acked(ack))), Advance(0, SampleEnv(Crash));
    SampleAcceptable("s1", "c1", Crash);
    assert !CorrelationUsed(EMPTY_TABLES, "c1");
    var t := RecordSignal(EMPTY_TABLES, plan, Received).value;
    Submits(digest, IDLE, 0, plan, t);
    var sending := Run(digest, IDLE, first);
    RunOne(digest, IDLE, first, a);
    RunOne(digest, IDLE, first + [a], b);
    SendStep(digest, sending, 0, ack);
    FirstOrder(t, plan, ack);
    LiveOrderId(plan, ack);
    RecordLiveStep(digest, sending.(sent := sending.sent + ["c1"]), 0, ack, RecordExecution(t, LiveOrder(plan, ack, 0), [], 0).value);
  }

  lemma LiveOrderId(plan: Plan, ack: Ack)
    ensures LiveOrder(plan, ack, 0).orderId == ack.brokerOrderId
  {
  }

  lemma TimesOut(digest: string -> string, s: Sys, tid: nat)
    requires tid in s.threads && s.threads[tid].pc == LiveSend
    ensures var s' := Run(digest, s, TimeoutPart(tid));
      && s'.tables == s.tables && tid in s'.threads && s'.threads[tid] == s.threads[tid].(pc := RecordUnknown)
  {
    hide StepThread, Run;
    var a, b := Advance(tid, SampleEnv(Timeout)), Advance(tid, SampleEnv(NotFound));
    NoStep(digest, s, a);
    RunOne(digest, s, [], a);
    assert [] + [a] == [a] && [a] + [b] == TimeoutPart(tid);
    RunOne(digest, s, [a], b);
    TimeoutSend(digest, s, tid);
    TimeoutLookup(digest, s.(sent := s.sent + [s.threads[tid].plan.correlationId]), tid);
  }

  lemma TimeoutSend(digest: string -> string, s: Sys, tid: nat)
    requires tid in s.threads && s.threads[tid].pc == LiveSend
    ensures StepThread(digest, s, tid, SampleEnv(Timeout))
         == Goto(s.(sent := s.sent + [s.threads[tid].plan.correlationId]), tid, LiveLookup)
  {
  }

  lemma TimeoutLookup(digest: string -> string, s: Sys, tid: nat)
    requires tid in s.threads
    ensures tid in Goto(s, tid, LiveLookup).threads
    ensures StepThread(digest, Goto(s, tid, LiveLookup), tid, SampleEnv(NotFound)) == Goto(s, tid, RecordUnknown)
  {
    Moved(s, s.tables, tid, LiveLookup, RecordUnknown);
  }

  /** The second call stands before recording its unknown order, whose id is taken. */
  lemma SecondCall(digest: string -> string, s: Sys)
    requires s == Run(digest, IDLE, CollidingRun())
    ensures 1 in s.threads && s.threads[1] == SampleThread(SamplePlan("s2", "c2")).(pc := RecordUnknown)
    ensures NameTaken(s.tables, SamplePlan("s2", "c2"))
  {
    hide PlanAcceptable, Run, TimeoutPart, FirstPart, Submission;
    var plan := SamplePlan("s2", "c2");
    var s1 := Run(digest, IDLE, FirstPart());
    FirstCall(digest, s1);
    Ready(digest, s1);
    RunConcat(digest, IDLE, FirstPart(), Submission(1, plan));
    RunConcat(digest, IDLE, FirstPart() + Submission(1, plan), TimeoutPart(1));
    TimesOut(digest, Run(digest, s1, Submission(1, plan)), 1);
    assert s.tables.orders[0].orderId == "unknown-" + plan.correlationId;
  }

  lemma Ready(digest: string -> string, s: Sys)
    requires s.threads.Keys == {0} && NothingLost(s, LIVE)
    requires s.tables.signals == map["s1" := SignalRow(SamplePlan("s1", "c1"), Submitted)]
    ensures var s' := Run(digest, s, Submission(1, SamplePlan("s2", "c2")));
      && 1 in s'.threads && s'.threads[1] == SampleThread(SamplePlan("s2", "c2")).(pc := LiveSend) && s'.tables.orders == s.tables.orders
  {
    hide PlanAcceptable, Run, Submission;
    SampleAcceptable("s2", "c2", Crash);
    assert !CorrelationUsed(s.tables, "c2");
    Submits(digest, s, 1, SamplePlan("s2", "c2"), RecordSignal(s.tables, SamplePlan("s2", "c2"), Received).value);
  }

  /** In that run the timeout is lost, whatever follows: the signal stays received, without any
      order, although its correlation id has been sent. */
  lemma TimeoutCanBeLost(digest: string -> string, env: Env, after: seq<Action>)
    ensures var s, plan := Run(digest, IDLE, CollidingRun()), SamplePlan("s2", "c2");
      && 1 in s.threads
      && var s' := Run(digest, StepThread(digest, s, 1, env), after);
         Row(s'.tables, plan, Received) && NoTrace(s'.tables, plan) && "c2" in s'.sent
  {
    hide Run, StepThread, Row, NoTrace, NameTaken, CollidingRun;
    SecondCall(digest, Run(digest, IDLE, CollidingRun()));
    TimeoutStaysUncertain(digest, CollidingRun(), Run(digest, IDLE, CollidingRun()), 1, env, after);
  }

  /** The order for `c1` times out. */
  function RaisingRun(): seq<Action> {
    Submission(0, SamplePlan("s1", "c1")) + [Advance(0, SampleEnv(Timeout))]
  }

  lemma FirstTimeout(digest: string -> string, s: Sys)
    requires s == Run(digest, IDLE, RaisingRun())
    ensures 0 in s.threads && s.threads[0] == SampleThread(SamplePlan("s1", "c1")).(pc := LiveLookup) && s.tables.orders == []
  {
    hide PlanAcceptable, Submission, Run, StepThread;
    var plan := SamplePlan("s1", "c1");
    SampleAcceptable("s1", "c1", Crash);
    assert !CorrelationUsed(EMPTY_TABLES, "c1");
    Submits(digest, IDLE, 0, plan, RecordSignal(EMPTY_TABLES, plan, Received).value);
    RunOne(digest, IDLE, Submission(0, plan), Advance(0, SampleEnv(Timeout)));
    TimeoutSend(digest, Run(digest, IDLE, Submission(0, plan)), 0);
  }

  /** If the lookup times out as well, the order is lost although the id of the unknown order is
      free: the signal stays received, whatever follows, and its correlation id has been sent. */
  lemma LookupCanRaise(digest: string -> string, record: Env, after: seq<Action>)
    ensures var s, plan := Run(digest, IDLE, RaisingRun()), SamplePlan("s1", "c1");
      && 0 in s.threads && !NameTaken(s.tables, plan)
      && var m := StepThread(digest, s, 0, SampleEnv(Timeout));
      && 0 in m.threads
      && var f := Run(digest, StepThread(digest, m, 0, record), after);
         OffTheLedger(f.tables, plan) && "c1" in f.sent
  {
    hide Run, StepThread, OffTheLedger, RaisingRun;
    var s := Run(digest, IDLE, RaisingRun());
    FirstTimeout(digest, s);
    var m := StepThread(digest, s, 0, SampleEnv(Timeout));
    NoStep(digest, m, Advance(0, record));
    TimeoutResolution(digest, RaisingRun(), s, 0, SampleEnv(Timeout), [], m, record, after);
  }

  // ----- kill limits -----

  datatype Limit = Switch | Day | Streak

  /** The limit is reached in state `s` for a call that acts at `now`. */
  ghost predicate Reached(s: Sys, policy: Policy, now: int, limit: Limit) {
    match limit
    case Switch => s.tables.killSwitch
    case Day => DailyPnl(s.tables.positions, DayOf(now)) <= -policy.maxDailyLoss
    case Streak => ConsecutiveLosses(s.tables.positions) >= policy.maxConsecutiveLosses
  }

  /** Not past the check of that limit. */
  predicate Gated(pc: Pc, limit: Limit) {
    || pc.ReadPlan? || pc.ReadState? || Checking(pc, limit) || pc == Done(Refused)
  }

  /** Inside the kill checks, before the one of that limit has passed. */
  predicate Checking(pc: Pc, limit: Limit) {
    || pc.ReadKill? || pc.Trip? || pc == Done(Killed)
    || (pc.ReadDaily? && limit != Switch) || (pc.ReadLosses? && limit == Streak)
  }

  /** Where a call reads what the limit speaks of. */
  function Reads(limit: Limit): Pc {
    match limit
    case Switch => ReadKill
    case Day => ReadDaily
    case Streak => ReadLosses
  }

  predicate AtCheck(s: Sys, tid: nat, limit: Limit) {
    tid in s.threads && s.threads[tid].pc == Reads(limit)
  }

  /** Steps that a call needs at most to be through with the kill checks. */
  function Remaining(pc: Pc): nat {
    match pc
    case ReadPlan => 6
    case ReadState => 5
    case ReadKill => 4
    case ReadDaily => 3
    case ReadLosses => 2
    case Trip => 1
    case _ => 0
  }

  /** A gated call that meets its limit records nothing, stays gated and moves on; if it is killed
      the switch is on. */
  lemma GatedStep(digest: string -> string, s: Sys, tid: nat, env: Env, limit: Limit)
    requires tid in s.threads && Gated(s.threads[tid].pc, limit)
    requires s.threads[tid].pc == Reads(limit) ==> Reached(s, s.threads[tid].policy, env.now, limit)
    ensures var s' := StepThread(digest, s, tid, env);
      && tid in s'.threads && Gated(s'.threads[tid].pc, limit) && s'.threads[tid].policy == s.threads[tid].policy
      && (Checking(s.threads[tid].pc, limit) ==> Checking(s'.threads[tid].pc, limit))
      && (Remaining(s.threads[tid].pc) > 0 ==> Remaining(s'.threads[tid].pc) < Remaining(s.threads[tid].pc))
      && s'.tables == s.tables.(killSwitch := s'.tables.killSwitch) && s'.sent == s.sent
      && (s'.threads[tid].pc == Done(Killed) && s.threads[tid].pc != Done(Killed) ==> s'.tables.killSwitch)
  {
  }

  /** The limit is reached at the step of the call that reads it. */
  ghost predicate StoppedThroughout(digest: string -> string, s: Sys, actions: seq<Action>, tid: nat, policy: Policy, limit: Limit) {
    forall k :: 0 <= k < |actions| && actions[k].Advance? && actions[k].tid == tid && AtCheck(Run(digest, s, actions[..k]), tid, limit) ==>
      Reached(Run(digest, s, actions[..k]), policy, actions[k].env.now, limit)
  }

  lemma StoppedPrefix(digest: string -> string, s: Sys, actions: seq<Action>, n: nat, tid: nat, policy: Policy, limit: Limit)
    requires StoppedThroughout(digest, s, actions, tid, policy, limit) && n <= |actions|
    ensures StoppedThroughout(digest, s, actions[..n], tid, policy, limit)
  {
    hide Reached;
    assert forall k :: 0 <= k < n ==> actions[..n][..k] == actions[..k] && actions[..n][k] == actions[k];
  }

  /** A call that meets its limit when it reads it never gets past the check, whatever the other
      calls do, and every step of its own brings it closer to its end. */
  lemma {:induction false} StaysGated(digest: string -> string, s: Sys, actions: seq<Action>, tid: nat, limit: Limit)
    requires tid in s.threads && Gated(s.threads[tid].pc, limit)
    requires StoppedThroughout(digest, s, actions, tid, s.threads[tid].policy, limit)
    ensures var s' := Run(digest, s, actions);
      && tid in s'.threads && Gated(s'.threads[tid].pc, limit) && s'.threads[tid].policy == s.threads[tid].policy
      && (Checking(s.threads[tid].pc, limit) ==> Checking(s'.threads[tid].pc, limit))
      && (Remaining(s'.threads[tid].pc) == 0 || Remaining(s'.threads[tid].pc) + Advances(actions, tid) <= Remaining(s.threads[tid].pc))
  {
    hide Apply, StepThread, Gated, Checking, Reached, Remaining;
    if actions != [] {
      var n := |actions| - 1;
      StoppedPrefix(digest, s, actions, n, tid, s.threads[tid].policy, limit);
      StaysGated(digest, s, actions[..n], tid, limit);
      var mid, a := Run(digest, s, actions[..n]), actions[n];
      if a.Advance? && a.tid == tid {
        GatedStep(digest, mid, tid, a.env, limit);
        AdvanceIs(digest, mid, a);
        if Remaining(mid.threads[tid].pc) == 0 { GatedEnd(digest, mid, tid, a.env, limit); }
      } else {
        OtherStep(digest, mid, a, tid);
      }
    }
  }

  lemma GatedEnd(digest: string -> string, s: Sys, tid: nat, env: Env, limit: Limit)
    requires tid in s.threads && Gated(s.threads[tid].pc, limit) && Remaining(s.threads[tid].pc) == 0
    ensures StepThread(digest, s, tid, env) == s
  {
  }

  /** Such a call records no signal, approval, order, fill or position and sends nothing: each of
      its steps leaves the tables as they are, apart from tripping the switch. */
  lemma LimitsHold(digest: string -> string, s: Sys, actions: seq<Action>, tid: nat, limit: Limit)
    requires tid in s.threads && Gated(s.threads[tid].pc, limit)
    requires StoppedThroughout(digest, s, actions, tid, s.threads[tid].policy, limit)
    ensures forall k :: 0 <= k < |actions| && actions[k].Advance? && actions[k].tid == tid ==> RecordsNothing(digest, s, actions, k)
    ensures var s' := Run(digest, s, actions); tid in s'.threads && Gated(s'.threads[tid].pc, limit)
  {
    hide Run, Gated, StoppedThroughout, RecordsNothing;
    StaysGated(digest, s, actions, tid, limit);
    forall k | 0 <= k < |actions| && actions[k].Advance? && actions[k].tid == tid ensures RecordsNothing(digest, s, actions, k) {
      QuietStep(digest, s, actions, k, tid, limit);
    }
  }

  lemma QuietStep(digest: string -> string, s: Sys, actions: seq<Action>, k: nat, tid: nat, limit: Limit)
    requires tid in s.threads && Gated(s.threads[tid].pc, limit)
    requires StoppedThroughout(digest, s, actions, tid, s.threads[tid].policy, limit)
    requires k < |actions| && actions[k].Advance? && actions[k].tid == tid
    ensures RecordsNothing(digest, s, actions, k) && KillTrips(digest, s, actions, k, tid)
  {
    hide Run, Apply, StepThread, Gated, Checking, Remaining, Reached;
    var before := Run(digest, s, actions[..k]);
    StoppedPrefix(digest, s, actions, k, tid, s.threads[tid].policy, limit);
    StaysGated(digest, s, actions[..k], tid, limit);
    GatedStep(digest, before, tid, actions[k].env, limit);
    AdvanceIs(digest, before, actions[k]);
    assert actions[..k + 1] == actions[..k] + [actions[k]];
    RunOne(digest, s, actions[..k], actions[k]);
  }

  /** An operator reset does not lift a loss limit. Among any actions, resets of the switch
      included, a call that stands before the check of a day or streak limit that holds whenever it
      acts is killed by its fourth step at the latest, and the step that kills it leaves the switch
      on again. */
  lemma ResetDoesNotLift(digest: string -> string, s: Sys, actions: seq<Action>, tid: nat, limit: Limit)
    requires tid in s.threads && Checking(s.threads[tid].pc, limit) && limit != Switch
    requires StoppedThroughout(digest, s, actions, tid, s.threads[tid].policy, limit)
    requires Advances(actions, tid) >= 4
    ensures var s' := Run(digest, s, actions); tid in s'.threads && s'.threads[tid].pc == Done(Killed)
    ensures forall k :: 0 <= k < |actions| && actions[k].Advance? && actions[k].tid == tid ==> KillTrips(digest, s, actions, k, tid)
  {
    hide Run, StoppedThroughout, Advances, KillTrips;
    StaysGated(digest, s, actions, tid, limit);
    forall k | 0 <= k < |actions| && actions[k].Advance? && actions[k].tid == tid ensures KillTrips(digest, s, actions, k, tid) {
      QuietStep(digest, s, actions, k, tid, limit);
    }
  }

  /** If action `k` kills the call, it leaves the switch on. */
  ghost predicate KillTrips(digest: string -> string, s: Sys, actions: seq<Action>, k: nat, tid: nat)
    requires k < |actions|
  {
    var before, after := Run(digest, s, actions[..k]), Run(digest, s, actions[..k + 1]);
    && tid in before.threads && tid in after.threads
    && (after.threads[tid].pc == Done(Killed) && before.threads[tid].pc != Done(Killed) ==> after.tables.killSwitch)
  }

  /** Action `k` records and sends nothing. */
  ghost predicate RecordsNothing(digest: string -> string, s: Sys, actions: seq<Action>, k: nat)
    requires k < |actions|
  {
    var before, after := Run(digest, s, actions[..k]), Run(digest, s, actions[..k + 1]);
    after.tables == before.tables.(killSwitch := after.tables.killSwitch) && after.sent == before.sent
  }

  /** Undisturbed: reset, then the call's checks. The switch is on again and nothing else changed. */
  lemma ResetThenCheck(digest: string -> string, s: Sys, tid: nat, env: Env, limit: Limit)
    requires tid in s.threads && s.threads[tid].pc == ReadKill && limit != Switch
    requires Reached(s, s.threads[tid].policy, env.now, limit)
    ensures var s' := Run(digest, Apply(digest, s, Operator(false)), Repeat(Advance(tid, env), 4));
      && s'.tables == s.tables.(killSwitch := true) && s'.sent == s.sent
      && tid in s'.threads && s'.threads[tid].pc == Done(Killed)
  {
    hide Run, Repeat, StepThread, Goto, DailyPnl, ConsecutiveLosses, DayOf;
    var reset := Apply(digest, s, Operator(false));
    NoStep(digest, reset, Advance(tid, env));
    NextStep(digest, reset, tid, env, 0, reset);
    KillStep(digest, reset, tid, env);
    Moved(reset, reset.tables, tid, ReadDaily, Trip);
    NextStep(digest, reset, tid, env, 1, Goto(reset, tid, ReadDaily));
    DayVerdict(digest, reset, tid, env);
    TripStep(digest, reset, tid, env);
    if Reached(s, s.threads[tid].policy, env.now, Day) {
      NextStep(digest, reset, tid, env, 2, Goto(reset, tid, Trip));
    } else {
      Moved(reset, reset.tables, tid, ReadLosses, Trip);
      NextStep(digest, reset, tid, env, 2, Goto(reset, tid, ReadLosses));
      StreakVerdict(digest, reset, tid, env);
    }
    NextStep(digest, reset, tid, env, 3, Run(digest, reset, Repeat(Advance(tid, env), 3)));
    if Reached(s, s.threads[tid].policy, env.now, Day) {
      DoneStays(digest, StepThread(digest, Goto(reset, tid, Trip), tid, env), tid, env);
    }
  }

  lemma DayVerdict(digest: string -> string, s: Sys, tid: nat, env: Env)
    requires tid in s.threads
    ensures tid in Goto(s, tid, ReadDaily).threads
    ensures StepThread(digest, Goto(s, tid, ReadDaily), tid, env)
         == Goto(s, tid, if Reached(s, s.threads[tid].policy, env.now, Day) then Trip else ReadLosses)
  {
    hide DailyPnl, DayOf;
    Moved(s, s.tables, tid, ReadDaily, Trip);
    Moved(s, s.tables, tid, ReadDaily, ReadLosses);
  }

  lemma StreakVerdict(digest: string -> string, s: Sys, tid: nat, env: Env)
    requires tid in s.threads && Reached(s, s.threads[tid].policy, env.now, Streak)
    ensures tid in Goto(s, tid, ReadLosses).threads
    ensures StepThread(digest, Goto(s, tid, ReadLosses), tid, env) == Goto(s, tid, Trip)
  {
    hide ConsecutiveLosses;
    Moved(s, s.tables, tid, ReadLosses, Trip);
  }

  lemma TripStep(digest: string -> string, s: Sys, tid: nat, env: Env)
    requires tid in s.threads
    ensures tid in Goto(s, tid, Trip).threads
    ensures var s' := StepThread(digest, Goto(s, tid, Trip), tid, env);
      && s'.tables == s.tables.(killSwitch := true) && s'.sent == s.sent
      && tid in s'.threads && s'.threads[tid].pc == Done(Killed)
  {
  }
}
