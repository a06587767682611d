/** What every step of a replay keeps true of the book, and what that says of a finished run. */
module ReplayInvariants {
  import opened Outcomes
  import opened BacktestModels
  import opened ReplayEngine
  import opened ReplayHistory

  ghost predicate Input(cfg: Config, frames: seq<ReplayFrame>) {
    cfg.Valid() && ValidFrames(frames) && ValidSequence(frames)
  }

  // ----- one open position, one closed trade -----

  ghost predicate Entered(cfg: Config, frames: seq<ReplayFrame>, signal: Signal, entryTime: int, price: real,
                          quantity: int, costs: CostBreakdown, story: seq<JournalEntry>)
    requires ValidFrames(frames)
  {
    && signal.Valid()
    && EntryOk(cfg, frames, signal, entryTime, price, quantity)
    && costs == OrderCosts(cfg, price, quantity, true)
    && |story| >= 2
    && story[0] == SignalEntry(SignalQueued, signal.generatedAt, signal)
    && story[1] == EntryRecord(signal, entryTime, price, quantity)
  }

  ghost predicate LaterThan(fills: seq<JournalEntry>, ts: int) {
    forall i :: 0 <= i < |fills| ==> ts < fills[i].timestamp
  }

  ghost predicate Until(fills: seq<JournalEntry>, ts: int) {
    forall i :: 0 <= i < |fills| ==> fills[i].timestamp <= ts
  }

  /** The exit state of a position that has met `n` frames follows from the input alone. */
  ghost predicate ExitState(cfg: Config, frames: seq<ReplayFrame>, n: nat, p: Position, fills: seq<JournalEntry>)
    requires ValidFrames(frames) && n <= |frames|
  {
    var trigger := FirstTrigger(frames, n, p.signal, p.entryTime);
    var last := LastBar(frames, n, p.signal.instrumentId);
    && last.Some? && p.entryTime <= last.value.timestamp
    && Until(fills, last.value.timestamp)
    && match p.exitReason
       case None => p.lastExitAttempt.None? && fills == [] && trigger.None?
       case Some(EndOfData) =>
         && p.lastExitAttempt == Some(last.value.timestamp) && cfg.partialFills
         && n == |frames| && trigger.None? && fills == EndFills(cfg, frames, p.signal, p.quantity)
       case Some(reason) =>
         && p.lastExitAttempt == Some(last.value.timestamp) && cfg.partialFills
         && trigger == Some(reason) && LaterThan(fills, p.entryTime)
         && fills == DueFills(cfg, frames, n, p.signal, p.entryTime, p.quantity)
  }

  ghost predicate PositionInv(cfg: Config, frames: seq<ReplayFrame>, n: nat, p: Position, story: seq<JournalEntry>)
    requires ValidFrames(frames)
  {
    && 0 < n <= |frames| && p.Sound()
    && Entered(cfg, frames, p.signal, p.entryTime, p.entryPrice, p.quantity, p.entryCosts, story)
    && p.entrySlippage == Amount(p.entryPrice, p.quantity)
         - Amount(BarAt(frames, p.entryTime, p.signal.instrumentId).value.ask, p.quantity)
    && Tallied(cfg, frames, p, story[2..])
    && ExitState(cfg, frames, n, p, story[2..])
  }

  /** The note that closes a trade: the whole quantity at the average exit price. */
  function ExitRecord(t: Trade): JournalEntry {
    JournalEntry(t.exitTime, Exit, t.signal.signalId, t.signal.instrumentId, t.quantity, Some(t.exitPrice))
  }

  ghost predicate TradeInv(cfg: Config, frames: seq<ReplayFrame>, t: Trade, story: seq<JournalEntry>)
    requires ValidFrames(frames)
  {
    && |story| >= 3
    && Entered(cfg, frames, t.signal, t.entryTime, t.entryPrice, t.quantity, t.entryCosts, story)
    && story[|story| - 1] == ExitRecord(t)
    && var fills := story[2..|story| - 1];
    && TradeTallied(cfg, frames, t, fills)
    && t.slippageCost == Amount(t.entryPrice, t.quantity)
         - Amount(BarAt(frames, t.entryTime, t.signal.instrumentId).value.ask, t.quantity)
         + (FlowsOf(cfg, frames, fills).raw - FlowsOf(cfg, frames, fills).notional)
    && t.entryTime <= t.exitTime
    && CalledFor(cfg, frames, t.signal, t.entryTime, t.quantity, t.exitReason, fills)
  }

  /** The exit reason and the fills are what the input calls for. */
  ghost predicate CalledFor(cfg: Config, frames: seq<ReplayFrame>, signal: Signal, entryTime: int, quantity: int,
                            reason: ExitReason, fills: seq<JournalEntry>)
    requires ValidFrames(frames)
  {
    var trigger := FirstTrigger(frames, |frames|, signal, entryTime);
    if reason == EndOfData then trigger.None? && fills == EndFills(cfg, frames, signal, quantity)
    else trigger == Some(reason) && LaterThan(fills, entryTime)
         && fills == DueFills(cfg, frames, |frames|, signal, entryTime, quantity)
  }

  /** The journal after one exit attempt, seen as this signal's story. */
  lemma ExitStory(cfg: Config, j: seq<JournalEntry>, p: Position, bar: OptionBar, reason: ExitReason)
    requires cfg.Valid() && bar.Valid() && p.Sound()
    ensures var r := ExecuteExit(cfg, p, bar, reason);
      var e := FillEntry(cfg, p, bar);
      var id := p.signal.signalId;
      && (forall other :: other != id ==> Story(j + r.entries, other) == Story(j, other))
      && (e.quantity == 0 ==> r.trade.None? && Story(j + r.entries, id) == Story(j, id))
      && (e.quantity > 0 && r.trade.None? ==> Story(j + r.entries, id) == Story(j, id) + [e])
      && (r.trade.Some? ==> e.quantity > 0)
      && (r.trade.Some? ==> Story(j + r.entries, id) == Story(j, id) + [e, ExitRecord(r.trade.value)])
  {
    hide OrderCosts, ExitPrice, Fillable, Amount;
    var r := ExecuteExit(cfg, p, bar, reason);
    var e := FillEntry(cfg, p, bar);
    var id := p.signal.signalId;
    if |r.entries| == 1 {
      forall x ensures Story(j + r.entries, x) == Story(j, x) + (if r.entries[0].signalId == x && r.entries[0].event != Unfilled then [r.entries[0]] else []) {
        StoryOne(j, r.entries[0], x);
      }
    } else {
      var x := r.entries[1];
      forall y ensures Story(j + r.entries, y) == Story(j, y) + (if y == id then [e, x] else []) {
        StoryOne(j, e, y);
        StoryTwo(j, e, x, y);
        assert Story(j, id) + [e] + [x] == Story(j, id) + [e, x];
      }
    }
  }

  /** What an exit attempt turns an open position into. */
  ghost predicate Exited(cfg: Config, frames: seq<ReplayFrame>, n: nat, p: Position, r: ExitOutcome, story: seq<JournalEntry>)
    requires ValidFrames(frames)
  {
    && r.position.signal == p.signal && r.position.entryTime == p.entryTime
    && (r.trade.None? ==> PositionInv(cfg, frames, n, r.position, story))
    && (r.trade.Some? ==>
          && TradeInv(cfg, frames, r.trade.value, story)
          && r.trade.value.signal == p.signal && r.trade.value.entryTime == p.entryTime)
  }

  /** The bar offered to a position is its latest of the first `n` frames, not used before, and
      the reason is what the input calls for. */
  ghost predicate Ready(cfg: Config, frames: seq<ReplayFrame>, n: nat, p: Position, bar: OptionBar, reason: ExitReason,
                        fills: seq<JournalEntry>)
    requires ValidFrames(frames) && p.Sound()
  {
    var due := if FillEntry(cfg, p, bar).quantity == 0 then fills else fills + [FillEntry(cfg, p, bar)];
    && 0 < n <= |frames|
    && LastBar(frames, n, p.signal.instrumentId) == Some(bar) && p.entryTime <= bar.timestamp
    && (forall i :: 0 <= i < |fills| ==> fills[i].timestamp < bar.timestamp)
    && (p.exitReason.Some? ==> p.exitReason == Some(reason))
    && if reason == EndOfData
       then n == |frames| && FirstTrigger(frames, n, p.signal, p.entryTime).None? && fills == []
            && due == EndFills(cfg, frames, p.signal, p.quantity)
       else FirstTrigger(frames, n, p.signal, p.entryTime) == Some(reason)
            && LaterThan(fills, p.entryTime) && p.entryTime < bar.timestamp
            && due == DueFills(cfg, frames, n, p.signal, p.entryTime, p.quantity)
  }

  lemma AttemptUnfilled(cfg: Config, frames: seq<ReplayFrame>, m: nat, n: nat, p: Position, bar: OptionBar,
                        reason: ExitReason, story: seq<JournalEntry>)
    requires Input(cfg, frames) && PositionInv(cfg, frames, m, p, story) && bar.Valid()
    requires Ready(cfg, frames, n, p, bar, reason, story[2..])
    requires BarAt(frames, bar.timestamp, p.signal.instrumentId) == Some(bar)
    requires FillEntry(cfg, p, bar).quantity == 0
    ensures Exited(cfg, frames, n, p, ExecuteExit(cfg, p, bar, reason), story)
  {
    hide OrderCosts, ExitPrice, Fillable, Amount, BarAt, WithinCap, FlowsOf, FillsOk, EntryOk, FirstTrigger, LastBar, DueFills, EndFills;
    ExitTallied(cfg, frames, p, bar, reason, story[2..]);
    PartialLeft(cfg, p, bar, reason);
  }

  lemma AttemptPartial(cfg: Config, frames: seq<ReplayFrame>, m: nat, n: nat, p: Position, bar: OptionBar,
                       reason: ExitReason, story: seq<JournalEntry>)
    requires Input(cfg, frames) && PositionInv(cfg, frames, m, p, story) && bar.Valid()
    requires Ready(cfg, frames, n, p, bar, reason, story[2..])
    requires BarAt(frames, bar.timestamp, p.signal.instrumentId) == Some(bar)
    requires FillEntry(cfg, p, bar).quantity > 0 && ExecuteExit(cfg, p, bar, reason).trade.None?
    ensures Exited(cfg, frames, n, p, ExecuteExit(cfg, p, bar, reason), story + [FillEntry(cfg, p, bar)])
  {
    hide OrderCosts, ExitPrice, Fillable, Amount, BarAt, WithinCap, FlowsOf, FillsOk, EntryOk, FirstTrigger, LastBar, DueFills, EndFills;
    var e := FillEntry(cfg, p, bar);
    ExitTallied(cfg, frames, p, bar, reason, story[2..]);
    PartialLeft(cfg, p, bar, reason);
    assert (story + [e])[2..] == story[2..] + [e];
  }

  lemma AttemptCloses(cfg: Config, frames: seq<ReplayFrame>, m: nat, n: nat, p: Position, bar: OptionBar,
                      reason: ExitReason, story: seq<JournalEntry>, x: JournalEntry)
    requires Input(cfg, frames) && PositionInv(cfg, frames, m, p, story) && bar.Valid()
    requires Ready(cfg, frames, n, p, bar, reason, story[2..])
    requires BarAt(frames, bar.timestamp, p.signal.instrumentId) == Some(bar)
    requires ExecuteExit(cfg, p, bar, reason).trade.Some? && x == ExitRecord(ExecuteExit(cfg, p, bar, reason).trade.value)
    ensures Exited(cfg, frames, n, p, ExecuteExit(cfg, p, bar, reason), story + [FillEntry(cfg, p, bar), x])
    ensures ExecuteExit(cfg, p, bar, reason).trade.value.exitTime == bar.timestamp
  {
    hide Amount, BarAt, FlowsOf, ExecuteExit, FillEntry, Entered, Tallied, TradeTallied, ExitState, CalledFor, Ready;
    var e := FillEntry(cfg, p, bar);
    EntryStory(cfg, frames, p.signal, p.entryTime, p.entryPrice, p.quantity, p.entryCosts, story, story + [e, x]);
    var fills := story[2..] + [e];
    var r := ExecuteExit(cfg, p, bar, reason);
    ReadyFacts(cfg, frames, n, p, bar, reason, story[2..]);
    ExitTallied(cfg, frames, p, bar, reason, story[2..]);
    ClosedFills(story, e, x);
    ClosingTrade(cfg, p, bar, reason);
    TalliedSlippage(cfg, frames, r.position, fills);
    TalliedAll(cfg, frames, r.trade.value, fills);
    ReadyCalls(cfg, frames, n, p, bar, reason, story[2..]);
  }

  lemma ReadyFacts(cfg: Config, frames: seq<ReplayFrame>, n: nat, p: Position, bar: OptionBar, reason: ExitReason, fills: seq<JournalEntry>)
    requires ValidFrames(frames) && p.Sound() && Ready(cfg, frames, n, p, bar, reason, fills)
    ensures p.entryTime <= bar.timestamp && (p.exitReason.Some? ==> p.exitReason == Some(reason))
    ensures forall i :: 0 <= i < |fills| ==> fills[i].timestamp < bar.timestamp
  {
    hide LastBar, FirstTrigger, DueFills, EndFills, FillEntry;
  }

  lemma EntryStory(cfg: Config, frames: seq<ReplayFrame>, signal: Signal, entryTime: int, price: real, quantity: int,
                   costs: CostBreakdown, story: seq<JournalEntry>, longer: seq<JournalEntry>)
    requires ValidFrames(frames) && Entered(cfg, frames, signal, entryTime, price, quantity, costs, story)
    ensures |story| >= 2
    ensures story <= longer ==> Entered(cfg, frames, signal, entryTime, price, quantity, costs, longer)
  {
    hide EntryOk, OrderCosts;
  }

  lemma TalliedSlippage(cfg: Config, frames: seq<ReplayFrame>, p: Position, fills: seq<JournalEntry>)
    requires ValidFrames(frames) && Tallied(cfg, frames, p, fills)
    ensures FlowsOf(cfg, frames, fills).raw - FlowsOf(cfg, frames, fills).notional == p.exitSlippage
  {
    hide FlowsOf, FillsOk, WholeLots;
  }

  lemma TalliedAll(cfg: Config, frames: seq<ReplayFrame>, t: Trade, fills: seq<JournalEntry>)
    requires ValidFrames(frames) && TradeTallied(cfg, frames, t, fills)
    ensures FlowsOf(cfg, frames, fills).quantity == t.quantity
  {
    hide FlowsOf, FillsOk, Amount, RiskOk;
  }

  /** A closing attempt that was ready made the fill that was due last. */
  lemma ReadyCalls(cfg: Config, frames: seq<ReplayFrame>, n: nat, p: Position, bar: OptionBar, reason: ExitReason, fills: seq<JournalEntry>)
    requires ValidFrames(frames) && p.Sound() && Ready(cfg, frames, n, p, bar, reason, fills)
    requires FillEntry(cfg, p, bar).quantity > 0 && FlowsOf(cfg, frames, fills + [FillEntry(cfg, p, bar)]).quantity == p.quantity
    ensures CalledFor(cfg, frames, p.signal, p.entryTime, p.quantity, reason, fills + [FillEntry(cfg, p, bar)])
  {
    hide LastBar, FirstTrigger, DueFills, EndFills, FlowsOf, Fillable, ExitPrice;
    if reason != EndOfData {
      FirstTriggerStable(frames, n, |frames|, p.signal, p.entryTime);
      DueStable(cfg, frames, n, |frames|, p.signal, p.entryTime, p.quantity);
    }
  }

  lemma ClosedFills(story: seq<JournalEntry>, e: JournalEntry, x: JournalEntry)
    requires |story| >= 2
    ensures var closed := story + [e, x];
      && closed[2..|closed| - 1] == story[2..] + [e] && closed[|closed| - 1] == x
      && closed[0] == story[0] && closed[1] == story[1]
  {
  }

  /** What a closing attempt copies from its position. */
  lemma ClosingTrade(cfg: Config, p: Position, bar: OptionBar, reason: ExitReason)
    requires cfg.Valid() && bar.Valid() && p.Sound() && ExecuteExit(cfg, p, bar, reason).trade.Some?
    ensures var r := ExecuteExit(cfg, p, bar, reason).position;
      r.signal == p.signal && r.entryTime == p.entryTime && r.quantity == p.quantity
    ensures FillEntry(cfg, p, bar).timestamp == bar.timestamp
    ensures var t := ExecuteExit(cfg, p, bar, reason).trade.value;
      && t.signal == p.signal && t.entryTime == p.entryTime && t.entryPrice == p.entryPrice && t.quantity == p.quantity
      && t.entryCosts == p.entryCosts && t.exitTime == bar.timestamp
      && t.exitReason == (if p.exitReason.Some? then p.exitReason.value else reason)
  {
    hide OrderCosts, ExitPrice, Fillable, Amount;
  }

  lemma Attempt(cfg: Config, frames: seq<ReplayFrame>, m: nat, n: nat, p: Position, bar: OptionBar,
                reason: ExitReason, j: seq<JournalEntry>)
    requires Input(cfg, frames) && PositionInv(cfg, frames, m, p, Story(j, p.signal.signalId)) && bar.Valid()
    requires Ready(cfg, frames, n, p, bar, reason, Story(j, p.signal.signalId)[2..])
    requires BarAt(frames, bar.timestamp, p.signal.instrumentId) == Some(bar)
    ensures var r := ExecuteExit(cfg, p, bar, reason);
      && Exited(cfg, frames, n, p, r, Story(j + r.entries, p.signal.signalId))
      && (r.trade.Some? ==> r.trade.value.exitTime == bar.timestamp)
  {
    hide ExecuteExit, FillEntry, Exited, Ready, BarAt, Entered, Tallied, ExitState, Amount;
    var story := Story(j, p.signal.signalId);
    var r := ExecuteExit(cfg, p, bar, reason);
    var e := FillEntry(cfg, p, bar);
    ExitStory(cfg, j, p, bar, reason);
    if r.trade.Some? {
      AttemptCloses(cfg, frames, m, n, p, bar, reason, story, ExitRecord(r.trade.value));
    } else if e.quantity > 0 {
      AttemptPartial(cfg, frames, m, n, p, bar, reason, story);
    } else {
      AttemptUnfilled(cfg, frames, m, n, p, bar, reason, story);
    }
  }

  lemma TriggerNotEnd(signal: Signal, entryTime: int, bar: OptionBar)
    ensures ExitTrigger(signal, entryTime, bar) != Some(EndOfData)
  {
  }

  /** Only partial-fill mode leaves a position open after an attempt. */
  lemma PartialLeft(cfg: Config, p: Position, bar: OptionBar, reason: ExitReason)
    requires cfg.Valid() && bar.Valid() && p.Sound()
    requires ExecuteExit(cfg, p, bar, reason).trade.None?
    ensures cfg.partialFills
  {
  }

  /** The fill that a frame's bar makes is the one that is due. */
  lemma LoopDue(cfg: Config, frames: seq<ReplayFrame>, n: nat, p: Position, bar: OptionBar, fills: seq<JournalEntry>)
    requires ValidFrames(frames) && n < |frames| && p.Sound() && Tallied(cfg, frames, p, fills)
    requires p.signal.instrumentId in FrameBars(frames[n]) && bar == FrameBars(frames[n])[p.signal.instrumentId]
    requires FirstTrigger(frames, n + 1, p.signal, p.entryTime).Some?
    requires fills == DueFills(cfg, frames, n, p.signal, p.entryTime, p.quantity)
    ensures DueFills(cfg, frames, n + 1, p.signal, p.entryTime, p.quantity)
         == if FillEntry(cfg, p, bar).quantity == 0 then fills else fills + [FillEntry(cfg, p, bar)]
  {
    hide FirstTrigger, FillsOk, WholeLots, FlowsOf, DueFills, BarFill, FillEntry, FrameBars;
    DueStep(cfg, frames, n, p.signal, p.entryTime, p.quantity);
    BarFillIsEntry(cfg, p, bar);
    assert fills + [] == fills;
  }

  lemma DueStep(cfg: Config, frames: seq<ReplayFrame>, n: nat, signal: Signal, entryTime: int, quantity: int)
    requires ValidFrames(frames) && n < |frames| && signal.instrumentId in FrameBars(frames[n])
    requires FirstTrigger(frames, n + 1, signal, entryTime).Some?
    ensures var before := DueFills(cfg, frames, n, signal, entryTime, quantity);
      DueFills(cfg, frames, n + 1, signal, entryTime, quantity)
        == before + BarFill(cfg, signal, quantity - FlowsOf(cfg, frames, before).quantity, FrameBars(frames[n])[signal.instrumentId])
  {
    hide FirstTrigger, FlowsOf, BarFill, FrameBars;
  }

  lemma BarFillIsEntry(cfg: Config, p: Position, bar: OptionBar)
    requires p.Sound()
    ensures BarFill(cfg, p.signal, p.remainingQuantity, bar)
         == if FillEntry(cfg, p, bar).quantity == 0 then [] else [FillEntry(cfg, p, bar)]
  {
    hide Fillable, ExitPrice;
  }

  lemma EndDue(cfg: Config, frames: seq<ReplayFrame>, p: Position, bar: OptionBar)
    requires ValidFrames(frames) && p.Sound() && Tallied(cfg, frames, p, [])
    requires LastBar(frames, |frames|, p.signal.instrumentId) == Some(bar)
    ensures EndFills(cfg, frames, p.signal, p.quantity)
         == if FillEntry(cfg, p, bar).quantity == 0 then [] else [FillEntry(cfg, p, bar)]
  {
    hide Fillable, ExitPrice, FillsOk, WholeLots, LastBar;
  }

  /** What the next frame adds to the latest bar and the first trigger. */
  lemma NextBar(frames: seq<ReplayFrame>, n: nat, signal: Signal, entryTime: int)
    requires ValidFrames(frames) && n < |frames| && signal.instrumentId in FrameBars(frames[n])
    ensures var bar := FrameBars(frames[n])[signal.instrumentId];
      && bar.timestamp == frames[n].timestamp
      && LastBar(frames, n + 1, signal.instrumentId) == Some(bar)
      && FirstTrigger(frames, n + 1, signal, entryTime)
         == (if FirstTrigger(frames, n, signal, entryTime).Some? then FirstTrigger(frames, n, signal, entryTime)
             else if bar.timestamp > entryTime then ExitTrigger(signal, entryTime, bar) else None)
  {
    hide ExitTrigger;
  }

  lemma LoopReady(cfg: Config, frames: seq<ReplayFrame>, n: nat, p: Position, bar: OptionBar, reason: ExitReason,
                  story: seq<JournalEntry>)
    requires Input(cfg, frames) && n < |frames| && PositionInv(cfg, frames, n, p, story)
    requires p.signal.instrumentId in FrameBars(frames[n]) && bar == FrameBars(frames[n])[p.signal.instrumentId]
    requires Some(reason) == if p.exitReason.Some? then p.exitReason else ExitTrigger(p.signal, p.entryTime, bar)
    ensures Ready(cfg, frames, n + 1, p, bar, reason, story[2..])
  {
    hide BarAt, EntryOk, OrderCosts, Tallied, Amount, ExitTrigger, DueFills, FillEntry, EndFills, FirstTrigger, LastBar,
      ReplayFrame.Valid;
    LastBarMeaning(frames, n, p.signal.instrumentId);
    NextBar(frames, n, p.signal, p.entryTime);
    assert frames[n - 1].timestamp < frames[n].timestamp;
    TriggerNotEnd(p.signal, p.entryTime, bar);
    if p.exitReason.None? { NothingDue(cfg, frames, n, p.signal, p.entryTime, p.quantity); }
    LoopDue(cfg, frames, n, p, bar, story[2..]);
  }

  /** The frame's bar acts on a position that has met the `n` frames before it. */
  lemma LoopExit(cfg: Config, frames: seq<ReplayFrame>, n: nat, p: Position, bar: OptionBar, reason: ExitReason,
                 j: seq<JournalEntry>)
    requires Input(cfg, frames) && n < |frames|
    requires PositionInv(cfg, frames, n, p, Story(j, p.signal.signalId))
    requires p.signal.instrumentId in FrameBars(frames[n]) && bar == FrameBars(frames[n])[p.signal.instrumentId]
    requires Some(reason) == if p.exitReason.Some? then p.exitReason else ExitTrigger(p.signal, p.entryTime, bar)
    ensures var r := ExecuteExit(cfg, p, bar, reason);
      && Exited(cfg, frames, n + 1, p, r, Story(j + r.entries, p.signal.signalId))
      && (r.trade.Some? ==> r.trade.value.exitTime == bar.timestamp)
  {
    hide ExecuteExit, FillEntry, Exited, BarAt, EntryOk, Tallied, Amount, ExitTrigger, FirstTrigger, LastBar, Ready, ExitState;
    BarAtFrame(frames, n, p.signal.instrumentId);
    LoopReady(cfg, frames, n, p, bar, reason, Story(j, p.signal.signalId));
    Attempt(cfg, frames, n, n + 1, p, bar, reason, j);
  }

  /** The end-of-data pass acts only on positions that no bar ever triggered, with a bar they
      have not used. */
  lemma EndExit(cfg: Config, frames: seq<ReplayFrame>, p: Position, bar: OptionBar, j: seq<JournalEntry>)
    requires Input(cfg, frames)
    requires PositionInv(cfg, frames, |frames|, p, Story(j, p.signal.signalId))
    requires LastBar(frames, |frames|, p.signal.instrumentId) == Some(bar) && p.lastExitAttempt != Some(bar.timestamp)
    ensures p.exitReason.None?
    ensures bar.Valid()
    ensures var r := ExecuteExit(cfg, p, bar, EndOfData);
      && Exited(cfg, frames, |frames|, p, r, Story(j + r.entries, p.signal.signalId))
      && (r.trade.Some? ==> r.trade.value.exitTime == bar.timestamp)
  {
    hide ExecuteExit, FillEntry, Exited, BarAt, EntryOk, Tallied, Amount, FirstTrigger, LastBar, DueFills, EndFills;
    LastBarMeaning(frames, |frames|, p.signal.instrumentId);
    EndDue(cfg, frames, p, bar);
    assert Ready(cfg, frames, |frames|, p, bar, EndOfData, Story(j, p.signal.signalId)[2..]);
    Attempt(cfg, frames, |frames|, |frames|, p, bar, EndOfData, j);
  }

  /** A frame without a trigger for the position leaves it as it is. */
  lemma QuietFrame(cfg: Config, frames: seq<ReplayFrame>, n: nat, p: Position, story: seq<JournalEntry>)
    requires Input(cfg, frames) && n < |frames| && PositionInv(cfg, frames, n, p, story)
    requires p.signal.instrumentId in FrameBars(frames[n]) ==>
               p.exitReason.None? && ExitTrigger(p.signal, p.entryTime, FrameBars(frames[n])[p.signal.instrumentId]).None?
    ensures PositionInv(cfg, frames, n + 1, p, story)
  {
    hide OrderCosts, Amount, BarAt, WithinCap, FlowsOf, ExitTrigger, FillsOk, EntryOk;
    LastBarMeaning(frames, n, p.signal.instrumentId);
  }

  /** A queued signal that fills becomes an open position with a clean history. */
  lemma EnterPosition(cfg: Config, frames: seq<ReplayFrame>, n: nat, s: Signal, bar: OptionBar, quantity: int,
                      story: seq<JournalEntry>)
    requires Input(cfg, frames) && n < |frames| && s.Valid()
    requires story == [SignalEntry(SignalQueued, s.generatedAt, s)]
    requires s.generatedAt < frames[n].timestamp < s.contractExpiry
    requires s.validUntil.Some? ==> frames[n].timestamp <= s.validUntil.value
    requires s.instrumentId in FrameBars(frames[n]) && bar == FrameBars(frames[n])[s.instrumentId]
    requires s.RequestedQuantity() >= 0
    requires quantity == Fillable(cfg, s.RequestedQuantity(), bar.askQuantity, s.lotSize) && quantity != 0
    requires s.stopPrice < EntryPrice(cfg, bar) < s.targetPrice
    ensures PositionInv(cfg, frames, n + 1, OpenAt(cfg, s, bar, frames[n].timestamp, quantity),
                        story + [EntryRecord(s, frames[n].timestamp, EntryPrice(cfg, bar), quantity)])
  {
    hide OrderCosts, Amount, BarAt, WithinCap, Fillable, EntryAdverse, WholeLots;
    var ts := frames[n].timestamp;
    var p := OpenAt(cfg, s, bar, ts, quantity);
    var record := EntryRecord(s, ts, EntryPrice(cfg, bar), quantity);
    assert (story + [record])[2..] == [];
    BarAtFrame(frames, n, s.instrumentId);
    assert WholeLots(s.RequestedQuantity(), s.lotSize) by { RequestedWhole(s); }
    FillableMeaning(cfg, s.RequestedQuantity(), bar.askQuantity, s.lotSize);
    AmountMinus(EntryPrice(cfg, bar), bar.ask, quantity);
    forall i | 0 <= i < n + 1 ensures frames[i].timestamp <= ts {
      if i < n { FramesOrdered(frames, i, n); }
    }
    NoTriggerYet(frames, n + 1, s, ts);
  }

  lemma RequestedWhole(s: Signal)
    ensures WholeLots(s.RequestedQuantity(), s.lotSize)
  {
    assert Product(s.lots, s.lotSize) == s.RequestedQuantity();
  }

  // ----- the whole book -----

  ghost function Seen(k: nat, todo: set<string>, id: string): int {
    if id in todo then k - 1 else k
  }

  ghost predicate PendingOk(frames: seq<ReplayFrame>, k: nat, s: Signal, story: seq<JournalEntry>) {
    && 0 < k <= |frames| && s.Valid() && s.generatedAt <= frames[k - 1].timestamp
    && story == [SignalEntry(SignalQueued, s.generatedAt, s)]
  }

  ghost predicate PendingInv(frames: seq<ReplayFrame>, k: nat, b: Book) {
    && (forall i :: 0 <= i < |b.pending| ==> PendingOk(frames, k, b.pending[i], Story(b.journal, b.pending[i].signalId)))
    && DistinctIds(b.pending)
  }

  ghost predicate PositionsInv(cfg: Config, frames: seq<ReplayFrame>, k: nat, todo: set<string>, b: Book)
    requires ValidFrames(frames)
  {
    forall id :: id in b.positions ==>
      && b.positions[id].signal.instrumentId == id
      && Seen(k, todo, id) >= 0
      && PositionInv(cfg, frames, Seen(k, todo, id), b.positions[id],
                     Story(b.journal, b.positions[id].signal.signalId))
  }

  ghost predicate TradesInv(cfg: Config, frames: seq<ReplayFrame>, k: nat, b: Book)
    requires ValidFrames(frames)
  {
    && (forall i :: 0 <= i < |b.trades| ==>
          && TradeInv(cfg, frames, b.trades[i], Story(b.journal, b.trades[i].signal.signalId))
          && 0 < k <= |frames| && b.trades[i].exitTime <= frames[k - 1].timestamp)
    && (forall i, l :: 0 <= i < l < |b.trades| ==> b.trades[i].signal.signalId != b.trades[l].signal.signalId)
  }

  /** Holding intervals on one instrument at most touch. */
  ghost predicate Disjoint(b: Book) {
    && (forall i, l :: 0 <= i < l < |b.trades| && b.trades[i].signal.instrumentId == b.trades[l].signal.instrumentId
          ==> b.trades[i].exitTime <= b.trades[l].entryTime)
    && (forall i, id :: 0 <= i < |b.trades| && id in b.positions && b.trades[i].signal.instrumentId == id
          ==> b.trades[i].exitTime <= b.positions[id].entryTime)
  }

  ghost predicate IsOpen(b: Book, s: Signal) {
    s.instrumentId in b.positions && b.positions[s.instrumentId].signal == s
  }

  ghost predicate IsClosed(b: Book, s: Signal) {
    exists i :: 0 <= i < |b.trades| && b.trades[i].signal == s
  }

  ghost predicate IsSkipped(b: Book, s: Signal) {
    var story := Story(b.journal, s.signalId);
    |story| == 2 && story[0].event == SignalQueued && story[1].event == Skipped
  }

  ghost predicate Accounted(b: Book, s: Signal) {
    s in b.pending || IsOpen(b, s) || IsClosed(b, s) || IsSkipped(b, s)
  }

  function Skips(j: seq<JournalEntry>): nat {
    if j == [] then 0 else Skips(j[..|j| - 1]) + (if j[|j| - 1].event == Skipped then 1 else 0)
  }

  lemma {:induction false} SkipsAppend(j: seq<JournalEntry>, es: seq<JournalEntry>)
    ensures Skips(j + es) == Skips(j) + Skips(es)
  {
    if es == [] {
      assert j + es == j;
    } else {
      assert (j + es)[..|j + es| - 1] == j + es[..|es| - 1];
      SkipsAppend(j, es[..|es| - 1]);
    }
  }

  ghost predicate SignalsInv(all: seq<Signal>, queued: nat, b: Book) {
    && queued <= |all|
    && (forall id :: id !in Ids(all[..queued]) ==> Story(b.journal, id) == [])
    && (forall i :: 0 <= i < queued ==> Accounted(b, all[i]))
    && queued == |b.pending| + |b.positions| + |b.trades| + Skips(b.journal)
  }

  /** Invariant of a replay that has begun `k` frames, still owes the instruments `todo` their
      bar of the last one, and has queued the first `queued` signals. */
  ghost predicate BookInv(cfg: Config, frames: seq<ReplayFrame>, k: nat, todo: set<string>, queued: nat, b: Book)
    requires ValidFrames(frames)
  {
    && k <= |frames| && b.Sound()
    && PendingInv(frames, k, b)
    && PositionsInv(cfg, frames, k, todo, b)
    && TradesInv(cfg, frames, k, b)
    && Disjoint(b)
    && SignalsInv(AllSignals(frames), queued, b)
  }

  lemma PendingStory(frames: seq<ReplayFrame>, k: nat, b: Book, s: Signal)
    requires PendingInv(frames, k, b) && s in b.pending
    ensures Story(b.journal, s.signalId) == [SignalEntry(SignalQueued, s.generatedAt, s)]
  {
    var q :| 0 <= q < |b.pending| && b.pending[q] == s;
    assert PendingOk(frames, k, b.pending[q], Story(b.journal, s.signalId));
  }

  lemma FillEvents(cfg: Config, frames: seq<ReplayFrame>, signal: Signal, fills: seq<JournalEntry>)
    requires ValidFrames(frames) && FillsOk(cfg, frames, signal, fills)
    ensures forall i :: 0 <= i < |fills| ==> fills[i].event == ExitFill && fills[i].signalId == signal.signalId
  {
    forall i | 0 <= i < |fills| ensures fills[i].event == ExitFill && fills[i].signalId == signal.signalId {
      assert FillOk(cfg, frames, signal, fills[i]);
    }
  }

  lemma OpenShape(cfg: Config, frames: seq<ReplayFrame>, n: nat, p: Position, story: seq<JournalEntry>)
    requires ValidFrames(frames) && PositionInv(cfg, frames, n, p, story)
    ensures |story| >= 2 && story[0].event == SignalQueued && story[1].event == Entry
    ensures story[1].instrumentId == p.signal.instrumentId
    ensures forall i :: 2 <= i < |story| ==> story[i].event == ExitFill
  {
    hide Amount, OrderCosts, BarAt, FlowsOf, EntryOk, ExitState;
    FillEvents(cfg, frames, p.signal, story[2..]);
    assert forall i :: 2 <= i < |story| ==> story[i] == story[2..][i - 2];
  }

  lemma ClosedShape(cfg: Config, frames: seq<ReplayFrame>, t: Trade, story: seq<JournalEntry>)
    requires ValidFrames(frames) && TradeInv(cfg, frames, t, story)
    ensures |story| >= 3 && story[0].event == SignalQueued && story[1].event == Entry && story[|story| - 1].event == Exit
    ensures forall i :: 2 <= i < |story| - 1 ==> story[i].event == ExitFill
  {
    hide Amount, OrderCosts, BarAt, FlowsOf, EntryOk, FirstTrigger;
    var fills := story[2..|story| - 1];
    FillEvents(cfg, frames, t.signal, fills);
    assert forall i :: 2 <= i < |story| - 1 ==> story[i] == fills[i - 2];
  }

  // ----- an exit keeps the invariant -----

  /** `b` becomes `b'` by an exit attempt on the position held under `id`. */
  ghost predicate ExitStep(cfg: Config, frames: seq<ReplayFrame>, k: nat, b: Book, id: string, r: ExitOutcome)
    requires ValidFrames(frames)
  {
    && id in b.positions && 0 < k <= |frames|
    && var p := b.positions[id];
    && (forall other :: other != p.signal.signalId ==> Story(b.journal + r.entries, other) == Story(b.journal, other))
    && Exited(cfg, frames, k, p, r, Story(b.journal + r.entries, p.signal.signalId))
    && Skips(r.entries) == 0
    && (r.trade.Some? ==> r.trade.value.exitTime <= frames[k - 1].timestamp)
    && (r.trade.None? ==> r.position.Sound())
  }

  /** The signal held under `id` owns its signal id. */
  ghost predicate SoleOwner(b: Book, id: string) {
    && id in b.positions
    && var pid := b.positions[id].signal.signalId;
    && (forall i :: 0 <= i < |b.pending| ==> b.pending[i].signalId != pid)
    && (forall other :: other in b.positions && other != id ==> b.positions[other].signal.signalId != pid)
    && (forall i :: 0 <= i < |b.trades| ==> b.trades[i].signal.signalId != pid)
    && (forall s: Signal :: s.signalId == pid ==> !IsSkipped(b, s))
  }

  /** Different holders never share a signal id. */
  lemma OwnersDiffer(cfg: Config, frames: seq<ReplayFrame>, k: nat, todo: set<string>, queued: nat, b: Book, id: string)
    requires ValidFrames(frames) && BookInv(cfg, frames, k, todo, queued, b) && id in b.positions
    ensures SoleOwner(b, id)
  {
    hide PositionInv, TradeInv, Story, SignalsInv, Disjoint;
    var p := b.positions[id];
    OpenShape(cfg, frames, Seen(k, todo, id), p, Story(b.journal, p.signal.signalId));
    forall other | other in b.positions && other != id ensures b.positions[other].signal.signalId != p.signal.signalId {
      var q := b.positions[other];
      OpenShape(cfg, frames, Seen(k, todo, other), q, Story(b.journal, q.signal.signalId));
    }
    forall i | 0 <= i < |b.trades| ensures b.trades[i].signal.signalId != p.signal.signalId {
      ClosedShape(cfg, frames, b.trades[i], Story(b.journal, b.trades[i].signal.signalId));
    }
    forall i | 0 <= i < |b.pending| ensures b.pending[i].signalId != p.signal.signalId {
      PendingStory(frames, k, b, b.pending[i]);
    }
  }

  lemma ExitKeepsOthers(cfg: Config, frames: seq<ReplayFrame>, k: nat, todo: set<string>, queued: nat, b: Book, id: string, r: ExitOutcome)
    requires Input(cfg, frames) && BookInv(cfg, frames, k, todo, queued, b) && ExitStep(cfg, frames, k, b, id, r)
    ensures var b' := ApplyExit(b, id, r);
      PendingInv(frames, k, b') && PositionsInv(cfg, frames, k, todo - {id}, b')
  {
    hide PositionInv, TradeInv, Story, SignalsInv, TradesInv, Disjoint, IsSkipped;
    OwnersDiffer(cfg, frames, k, todo, queued, b, id);
  }

  lemma ExitKeepsTrades(cfg: Config, frames: seq<ReplayFrame>, k: nat, todo: set<string>, queued: nat, b: Book, id: string, r: ExitOutcome)
    requires Input(cfg, frames) && BookInv(cfg, frames, k, todo, queued, b) && ExitStep(cfg, frames, k, b, id, r)
    ensures var b' := ApplyExit(b, id, r);
      TradesInv(cfg, frames, k, b') && Disjoint(b')
  {
    hide PositionInv, TradeInv, Story, SignalsInv, PendingInv, IsSkipped, Disjoint;
    OwnersDiffer(cfg, frames, k, todo, queued, b, id);
    ExitKeepsDisjoint(cfg, frames, k, todo, b, id, r);
  }

  lemma ExitKeepsDisjoint(cfg: Config, frames: seq<ReplayFrame>, k: nat, todo: set<string>, b: Book, id: string, r: ExitOutcome)
    requires ValidFrames(frames) && b.Sound() && Disjoint(b) && PositionsInv(cfg, frames, k, todo, b) && ExitStep(cfg, frames, k, b, id, r)
    ensures Disjoint(ApplyExit(b, id, r))
  {
    hide PositionInv, TradeInv, Story, Book.Sound;
  }

  lemma ExitAccounts(b: Book, id: string, r: ExitOutcome, s: Signal)
    requires b.Sound() && SoleOwner(b, id) && Accounted(b, s)
    requires r.position.signal == b.positions[id].signal
    requires r.trade.Some? ==> r.trade.value.signal == b.positions[id].signal
    requires r.trade.None? ==> r.position.Sound()
    requires s.signalId != b.positions[id].signal.signalId ==>
               Story(b.journal + r.entries, s.signalId) == Story(b.journal, s.signalId)
    ensures Accounted(ApplyExit(b, id, r), s)
  {
    hide Story, Book.Sound;
    var b' := ApplyExit(b, id, r);
    if s.signalId == b.positions[id].signal.signalId {
      assert IsOpen(b, s) && s.instrumentId == id;
      if r.trade.Some? { assert b'.trades[|b.trades|].signal == s; }
    } else if IsClosed(b, s) {
      var l :| 0 <= l < |b.trades| && b.trades[l].signal == s;
      assert b'.trades[l].signal == s;
    }
  }

  lemma ExitKeepsSignals(cfg: Config, frames: seq<ReplayFrame>, k: nat, todo: set<string>, queued: nat, b: Book, id: string, r: ExitOutcome)
    requires Input(cfg, frames) && BookInv(cfg, frames, k, todo, queued, b) && ExitStep(cfg, frames, k, b, id, r)
    ensures SignalsInv(AllSignals(frames), queued, ApplyExit(b, id, r))
  {
    hide PositionInv, TradeInv, Story, Skips, AllSignals, Accounted, PendingInv, TradesInv, Disjoint;
    var all := AllSignals(frames);
    OwnersDiffer(cfg, frames, k, todo, queued, b, id);
    SkipsAppend(b.journal, r.entries);
    OpenStoryNonEmpty(cfg, frames, k, todo, b, id);
    forall i | 0 <= i < queued ensures Accounted(ApplyExit(b, id, r), all[i]) {
      ExitAccounts(b, id, r, all[i]);
    }
  }

  lemma OpenStoryNonEmpty(cfg: Config, frames: seq<ReplayFrame>, k: nat, todo: set<string>, b: Book, id: string)
    requires ValidFrames(frames) && PositionsInv(cfg, frames, k, todo, b) && id in b.positions
    ensures Story(b.journal, b.positions[id].signal.signalId) != []
  {
  }

  lemma ExitKeepsInv(cfg: Config, frames: seq<ReplayFrame>, k: nat, todo: set<string>, queued: nat, b: Book, id: string, r: ExitOutcome)
    requires Input(cfg, frames) && BookInv(cfg, frames, k, todo, queued, b) && ExitStep(cfg, frames, k, b, id, r)
    ensures BookInv(cfg, frames, k, todo - {id}, queued, ApplyExit(b, id, r))
  {
    ExitKeepsOthers(cfg, frames, k, todo, queued, b, id, r);
    ExitKeepsTrades(cfg, frames, k, todo, queued, b, id, r);
    ExitKeepsSignals(cfg, frames, k, todo, queued, b, id, r);
  }

  // ----- leaving the queue keeps the invariant -----

  ghost predicate QueueOwner(b: Book, i: nat) {
    && i < |b.pending|
    && var sid := b.pending[i].signalId;
    && (forall l :: 0 <= l < |b.pending| && l != i ==> b.pending[l].signalId != sid)
    && (forall id :: id in b.positions ==> b.positions[id].signal.signalId != sid)
    && (forall l :: 0 <= l < |b.trades| ==> b.trades[l].signal.signalId != sid)
    && (forall s: Signal :: s.signalId == sid ==> !IsSkipped(b, s))
    && Story(b.journal, sid) == [SignalEntry(SignalQueued, b.pending[i].generatedAt, b.pending[i])]
  }

  lemma PendingOwns(cfg: Config, frames: seq<ReplayFrame>, k: nat, todo: set<string>, queued: nat, b: Book, i: nat)
    requires ValidFrames(frames) && BookInv(cfg, frames, k, todo, queued, b) && i < |b.pending|
    ensures QueueOwner(b, i)
  {
    hide OrderCosts, Amount, BarAt, WithinCap, FlowsOf, EntryOk, ExitState, FirstTrigger, Tallied, TradeTallied;
    assert PendingOk(frames, k, b.pending[i], Story(b.journal, b.pending[i].signalId));
  }

  /** The book after pending signal `i` left the queue with journal entry `e`, and possibly as an
      open position. */
  function Leave(b: Book, i: nat, e: JournalEntry, entered: Option<Position>): Book
    requires i < |b.pending|
  {
    Book(b.pending[..i] + b.pending[i + 1..],
         if entered.Some? then b.positions[b.pending[i].instrumentId := entered.value] else b.positions,
         b.trades, b.journal + [e])
  }

  ghost predicate LeaveStep(cfg: Config, frames: seq<ReplayFrame>, k: nat, b: Book, i: nat, e: JournalEntry, entered: Option<Position>)
    requires ValidFrames(frames)
  {
    && QueueOwner(b, i) && 0 < k <= |frames|
    && var s := b.pending[i];
    && e.signalId == s.signalId
    && match entered
       case None => e.event == Skipped
       case Some(p) =>
         && e.event == Entry && s.instrumentId !in b.positions
         && p.signal == s && p.entryTime == frames[k - 1].timestamp
         && PositionInv(cfg, frames, k, p, [SignalEntry(SignalQueued, s.generatedAt, s), e])
  }

  lemma LeaveStories(b: Book, i: nat, e: JournalEntry)
    requires QueueOwner(b, i) && e.signalId == b.pending[i].signalId && e.event != Unfilled
    ensures forall other :: other != e.signalId ==> Story(b.journal + [e], other) == Story(b.journal, other)
    ensures Story(b.journal + [e], e.signalId) == [SignalEntry(SignalQueued, b.pending[i].generatedAt, b.pending[i]), e]
  {
    forall other ensures Story(b.journal + [e], other)
                      == Story(b.journal, other) + (if e.signalId == other then [e] else [])
    {
      StoryOne(b.journal, e, other);
    }
  }

  lemma LeaveKeepsQueue(cfg: Config, frames: seq<ReplayFrame>, k: nat, queued: nat, b: Book, i: nat, e: JournalEntry, entered: Option<Position>)
    requires Input(cfg, frames) && BookInv(cfg, frames, k, {}, queued, b) && LeaveStep(cfg, frames, k, b, i, e, entered)
    ensures PendingInv(frames, k, Leave(b, i, e, entered))
  {
    hide TradeInv, Story, PositionInv, PositionsInv, SignalsInv, TradesInv, Disjoint, IsSkipped;
    LeaveStories(b, i, e);
    var b' := Leave(b, i, e, entered);
    forall l | 0 <= l < |b'.pending| ensures b'.pending[l] == if l < i then b.pending[l] else b.pending[l + 1] {}
  }

  lemma LeaveKeepsHolders(cfg: Config, frames: seq<ReplayFrame>, k: nat, queued: nat, b: Book, i: nat, e: JournalEntry, entered: Option<Position>)
    requires Input(cfg, frames) && BookInv(cfg, frames, k, {}, queued, b) && LeaveStep(cfg, frames, k, b, i, e, entered)
    ensures var b' := Leave(b, i, e, entered);
      b'.Sound() && PositionsInv(cfg, frames, k, {}, b')
  {
    hide TradeInv, Story, Entered, Tallied, ExitState, Amount, BarAt, SignalsInv, TradesInv, Disjoint, IsSkipped, PendingInv;
    LeaveStories(b, i, e);
  }

  lemma LeaveKeepsTrades(cfg: Config, frames: seq<ReplayFrame>, k: nat, queued: nat, b: Book, i: nat, e: JournalEntry, entered: Option<Position>)
    requires Input(cfg, frames) && BookInv(cfg, frames, k, {}, queued, b) && LeaveStep(cfg, frames, k, b, i, e, entered)
    ensures var b' := Leave(b, i, e, entered);
      TradesInv(cfg, frames, k, b') && Disjoint(b')
  {
    hide TradeInv, PositionInv, Story;
    LeaveStories(b, i, e);
  }

  lemma LeaveAccounts(b: Book, i: nat, e: JournalEntry, entered: Option<Position>, s: Signal)
    requires QueueOwner(b, i) && Accounted(b, s) && e.signalId == b.pending[i].signalId
    requires entered.None? ==> e.event == Skipped
    requires entered.Some? ==> entered.value.signal == b.pending[i] && b.pending[i].instrumentId !in b.positions
    requires s.signalId != e.signalId ==> Story(b.journal + [e], s.signalId) == Story(b.journal, s.signalId)
    requires Story(b.journal + [e], e.signalId) == [SignalEntry(SignalQueued, b.pending[i].generatedAt, b.pending[i]), e]
    ensures Accounted(Leave(b, i, e, entered), s)
  {
    hide Story;
    var b' := Leave(b, i, e, entered);
    if s.signalId == e.signalId {
      if s in b.pending {
        var l :| 0 <= l < |b.pending| && b.pending[l] == s;
      }
    } else if s in b.pending {
      var l :| 0 <= l < |b.pending| && b.pending[l] == s;
      assert b'.pending[if l < i then l else l - 1] == s;
    } else if IsClosed(b, s) {
      var l :| 0 <= l < |b.trades| && b.trades[l].signal == s;
      assert b'.trades[l].signal == s;
    }
  }

  lemma LeaveKeepsSignals(cfg: Config, frames: seq<ReplayFrame>, k: nat, queued: nat, b: Book, i: nat, e: JournalEntry, entered: Option<Position>)
    requires Input(cfg, frames) && BookInv(cfg, frames, k, {}, queued, b) && LeaveStep(cfg, frames, k, b, i, e, entered)
    ensures SignalsInv(AllSignals(frames), queued, Leave(b, i, e, entered))
  {
    hide TradeInv, PositionInv, Story, Skips, AllSignals, Accounted, PendingInv, TradesInv, Disjoint;
    var all := AllSignals(frames);
    LeaveStories(b, i, e);
    SkipsOne(b.journal, e);
    forall l | 0 <= l < queued ensures Accounted(Leave(b, i, e, entered), all[l]) {
      LeaveAccounts(b, i, e, entered, all[l]);
    }
  }

  lemma SkipsOne(j: seq<JournalEntry>, e: JournalEntry)
    ensures Skips(j + [e]) == Skips(j) + (if e.event == Skipped then 1 else 0)
  {
    assert (j + [e])[..|j|] == j;
  }

  lemma LeaveKeepsInv(cfg: Config, frames: seq<ReplayFrame>, k: nat, queued: nat, b: Book, i: nat, e: JournalEntry, entered: Option<Position>)
    requires Input(cfg, frames) && BookInv(cfg, frames, k, {}, queued, b) && LeaveStep(cfg, frames, k, b, i, e, entered)
    ensures BookInv(cfg, frames, k, {}, queued, Leave(b, i, e, entered))
  {
    LeaveKeepsQueue(cfg, frames, k, queued, b, i, e, entered);
    LeaveKeepsHolders(cfg, frames, k, queued, b, i, e, entered);
    LeaveKeepsTrades(cfg, frames, k, queued, b, i, e, entered);
    LeaveKeepsSignals(cfg, frames, k, queued, b, i, e, entered);
  }

  /** A "nothing filled" note changes no story. */
  lemma NoteKeepsInv(cfg: Config, frames: seq<ReplayFrame>, k: nat, todo: set<string>, queued: nat, b: Book, e: JournalEntry)
    requires Input(cfg, frames) && BookInv(cfg, frames, k, todo, queued, b) && e.event == Unfilled
    ensures BookInv(cfg, frames, k, todo, queued, b.(journal := b.journal + [e]))
  {
    hide TradeInv, PositionInv, Story, Skips, AllSignals, Accounted;
    var b' := b.(journal := b.journal + [e]);
    forall id ensures Story(b'.journal, id) == Story(b.journal, id) {
      StoryOne(b.journal, e, id);
    }
    SkipsOne(b.journal, e);
    forall s | Accounted(b, s) ensures Accounted(b', s) { NoteAccounts(b, b', s); }
  }

  lemma NoteAccounts(b: Book, b': Book, s: Signal)
    requires Accounted(b, s) && b' == b.(journal := b'.journal) && Story(b'.journal, s.signalId) == Story(b.journal, s.signalId)
    ensures Accounted(b', s)
  {
    hide Story;
    if IsClosed(b, s) {
      var l :| 0 <= l < |b.trades| && b.trades[l].signal == s;
      assert b'.trades[l].signal == s;
    }
  }
}
