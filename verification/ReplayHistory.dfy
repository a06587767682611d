/** What the journal and the input frames say about one signal, read without the engine's
    own accumulators, and how one exit attempt extends that history. */
module ReplayHistory {
  import opened Outcomes
  import opened BacktestModels
  import opened ReplayEngine

  // ----- the story of one signal -----

  /** Every journal entry of the signal except the "nothing filled" notes. */
  function Story(j: seq<JournalEntry>, id: string): seq<JournalEntry> {
    if j == [] then []
    else
      var last := j[|j| - 1];
      Story(j[..|j| - 1], id) + (if last.signalId == id && last.event != Unfilled then [last] else [])
  }

  lemma {:induction false} StoryAppend(j: seq<JournalEntry>, es: seq<JournalEntry>, id: string)
    ensures Story(j + es, id) == Story(j, id) + Story(es, id)
  {
    if es == [] {
      assert j + es == j;
    } else {
      var n := |es| - 1;
      assert (j + es)[..|j + es| - 1] == j + es[..n];
      StoryAppend(j, es[..n], id);
    }
  }

  lemma StoryOne(j: seq<JournalEntry>, e: JournalEntry, id: string)
    ensures Story(j + [e], id) == Story(j, id) + (if e.signalId == id && e.event != Unfilled then [e] else [])
  {
    assert (j + [e])[..|j|] == j;
  }

  lemma StoryTwo(j: seq<JournalEntry>, e: JournalEntry, f: JournalEntry, id: string)
    ensures Story(j + [e, f], id) == Story(j + [e], id) + (if f.signalId == id && f.event != Unfilled then [f] else [])
  {
    assert j + [e, f] == (j + [e]) + [f];
    StoryOne(j + [e], f, id);
  }

  // ----- what the input says -----

  /** The bar of instrument `id` at instant `ts`. */
  ghost function BarAt(frames: seq<ReplayFrame>, ts: int, id: string): Option<OptionBar>
    requires ValidFrames(frames)
  {
    if frames == [] then None
    else if frames[0].timestamp == ts then
      (if id in FrameBars(frames[0]) then Some(FrameBars(frames[0])[id]) else None)
    else BarAt(frames[1..], ts, id)
  }

  lemma {:induction false} BarAtFrame(frames: seq<ReplayFrame>, k: nat, id: string)
    requires ValidFrames(frames) && Ordered(frames) && k < |frames|
    ensures BarAt(frames, frames[k].timestamp, id)
         == if id in FrameBars(frames[k]) then Some(FrameBars(frames[k])[id]) else None
  {
    if k > 0 {
      FramesOrdered(frames, 0, k);
      assert frames[1..][k - 1] == frames[k];
      BarAtFrame(frames[1..], k - 1, id);
    }
  }

  lemma {:induction false} FramesOrdered(frames: seq<ReplayFrame>, i: nat, k: nat)
    requires Ordered(frames) && i < k < |frames|
    ensures frames[i].timestamp < frames[k].timestamp
    decreases k
  {
    assert frames[k - 1].timestamp < frames[k].timestamp;
    if i < k - 1 { FramesOrdered(frames, i, k - 1); }
  }

  /** The last bar of instrument `id` among the first `n` frames. */
  ghost function LastBar(frames: seq<ReplayFrame>, n: nat, id: string): Option<OptionBar>
    requires ValidFrames(frames) && n <= |frames|
  {
    if n == 0 then None
    else if id in FrameBars(frames[n - 1]) then Some(FrameBars(frames[n - 1])[id])
    else LastBar(frames, n - 1, id)
  }

  lemma {:induction false} LastBarMeaning(frames: seq<ReplayFrame>, n: nat, id: string)
    requires ValidFrames(frames) && Ordered(frames) && n <= |frames|
    ensures id in LatestBars(frames, n) <==> LastBar(frames, n, id).Some?
    ensures LastBar(frames, n, id).Some? ==>
              var bar := LastBar(frames, n, id).value;
              && LatestBars(frames, n)[id] == bar && bar.Valid() && bar.instrumentId == id
              && bar.timestamp <= frames[n - 1].timestamp
              && BarAt(frames, bar.timestamp, id) == Some(bar)
  {
    if n > 0 {
      LastBarMeaning(frames, n - 1, id);
      BarAtFrame(frames, n - 1, id);
    }
  }

  /** The reason of the first bar after `entryTime`, among the first `n` frames, that calls for
      an exit. */
  ghost function FirstTrigger(frames: seq<ReplayFrame>, n: nat, signal: Signal, entryTime: int): Option<ExitReason>
    requires ValidFrames(frames) && n <= |frames|
  {
    if n == 0 then None
    else
      var earlier := FirstTrigger(frames, n - 1, signal, entryTime);
      if earlier.Some? then earlier
      else if frames[n - 1].timestamp > entryTime && signal.instrumentId in FrameBars(frames[n - 1]) then
        ExitTrigger(signal, entryTime, FrameBars(frames[n - 1])[signal.instrumentId])
      else None
  }

  lemma {:induction false} FirstTriggerStable(frames: seq<ReplayFrame>, n: nat, m: nat, signal: Signal, entryTime: int)
    requires ValidFrames(frames) && n <= m <= |frames|
    requires FirstTrigger(frames, n, signal, entryTime).Some?
    ensures FirstTrigger(frames, m, signal, entryTime) == FirstTrigger(frames, n, signal, entryTime)
    decreases m
  {
    hide ExitTrigger, FrameBars, ReplayFrame.Valid;
    if n < m { FirstTriggerStable(frames, n, m - 1, signal, entryTime); }
  }

  lemma {:induction false} NoTriggerYet(frames: seq<ReplayFrame>, n: nat, signal: Signal, entryTime: int)
    requires ValidFrames(frames) && n <= |frames|
    requires forall i :: 0 <= i < n ==> frames[i].timestamp <= entryTime
    ensures FirstTrigger(frames, n, signal, entryTime) == None
  {
    if n > 0 { NoTriggerYet(frames, n - 1, signal, entryTime); }
  }

  /** Frame `k` shows the position a bar, later than its entry. */
  ghost predicate Shows(frames: seq<ReplayFrame>, k: nat, signal: Signal, entryTime: int)
    requires ValidFrames(frames)
  {
    k < |frames| && frames[k].timestamp > entryTime && signal.instrumentId in FrameBars(frames[k])
  }

  /** No level is touched, the contract runs and the holding limit is not reached. */
  predicate Calm(signal: Signal, entryTime: int, bar: OptionBar) {
    && signal.stopPrice < bar.low && bar.high < signal.targetPrice && bar.timestamp < signal.contractExpiry
    && (signal.maxHolding.Some? ==> bar.timestamp - entryTime < signal.maxHolding.value)
  }

  /** A bar calls for an exit with this reason: levels before clocks, the stop before the target. */
  predicate CallsFor(signal: Signal, entryTime: int, bar: OptionBar, reason: ExitReason) {
    match reason
    case Stop => bar.low <= signal.stopPrice
    case Target => signal.stopPrice < bar.low && bar.high >= signal.targetPrice
    case Expiry => signal.stopPrice < bar.low && bar.high < signal.targetPrice && bar.timestamp >= signal.contractExpiry
    case Time =>
      && signal.stopPrice < bar.low && bar.high < signal.targetPrice && bar.timestamp < signal.contractExpiry
      && signal.maxHolding.Some? && bar.timestamp - entryTime >= signal.maxHolding.value
    case EndOfData => false
  }

  ghost predicate FirstCall(frames: seq<ReplayFrame>, k: nat, signal: Signal, entryTime: int, reason: ExitReason)
    requires ValidFrames(frames)
  {
    && Shows(frames, k, signal, entryTime)
    && CallsFor(signal, entryTime, FrameBars(frames[k])[signal.instrumentId], reason)
    && forall m: nat :: m < k && Shows(frames, m, signal, entryTime) ==>
         Calm(signal, entryTime, FrameBars(frames[m])[signal.instrumentId])
  }

  lemma TriggerMeaning(signal: Signal, entryTime: int, bar: OptionBar)
    ensures match ExitTrigger(signal, entryTime, bar)
      case Some(reason) => CallsFor(signal, entryTime, bar, reason)
      case None => Calm(signal, entryTime, bar)
  {
  }

  /** The trigger is the call of the first bar after the entry that is not calm. */
  lemma {:induction false} FirstTriggerMeaning(frames: seq<ReplayFrame>, n: nat, signal: Signal, entryTime: int)
    requires ValidFrames(frames) && n <= |frames|
    ensures var trigger := FirstTrigger(frames, n, signal, entryTime);
      && (trigger.Some? ==> exists k: nat :: k < n && FirstCall(frames, k, signal, entryTime, trigger.value))
      && (trigger.None? ==> forall k: nat :: k < n && Shows(frames, k, signal, entryTime) ==>
            Calm(signal, entryTime, FrameBars(frames[k])[signal.instrumentId]))
  {
    hide FrameBars, ExitTrigger, Calm, CallsFor, ReplayFrame.Valid;
    if n > 0 {
      FirstTriggerMeaning(frames, n - 1, signal, entryTime);
      var earlier := FirstTrigger(frames, n - 1, signal, entryTime);
      if earlier.Some? {
        var k: nat :| k < n - 1 && FirstCall(frames, k, signal, entryTime, earlier.value);
      } else if Shows(frames, n - 1, signal, entryTime) {
        var k: nat := n - 1;
        var bar := FrameBars(frames[k])[signal.instrumentId];
        TriggerMeaning(signal, entryTime, bar);
        var trigger := ExitTrigger(signal, entryTime, bar);
        assert FirstTrigger(frames, n, signal, entryTime) == trigger;
        if trigger.Some? { assert k < n && FirstCall(frames, k, signal, entryTime, trigger.value); }
      }
    }
  }

  // ----- cash flows of a run of exit fills -----

  datatype Flows = Flows(quantity: int, notional: real, raw: real, costs: CostBreakdown)

  /** Quantity, proceeds, proceeds at the raw bid and costs of the fills, recomputed from the
      journal prices and the input bars. */
  ghost function FlowsOf(cfg: Config, frames: seq<ReplayFrame>, fills: seq<JournalEntry>): Flows
    requires ValidFrames(frames)
  {
    if fills == [] then Flows(0, 0.0, 0.0, NO_COSTS)
    else
      var e := fills[|fills| - 1];
      var before := FlowsOf(cfg, frames, fills[..|fills| - 1]);
      var price := if e.price.Some? then e.price.value else 0.0;
      var bar := BarAt(frames, e.timestamp, e.instrumentId);
      var bid := if bar.Some? then bar.value.bid else 0.0;
      Flows(before.quantity + e.quantity,
            before.notional + Amount(price, e.quantity),
            before.raw + Amount(bid, e.quantity),
            before.costs.Plus(OrderCosts(cfg, price, e.quantity, false)))
  }

  lemma FlowsAppend(cfg: Config, frames: seq<ReplayFrame>, fills: seq<JournalEntry>, e: JournalEntry, bar: OptionBar)
    requires ValidFrames(frames) && e.price.Some? && BarAt(frames, e.timestamp, e.instrumentId) == Some(bar)
    ensures var f := FlowsOf(cfg, frames, fills);
      FlowsOf(cfg, frames, fills + [e]) ==
        Flows(f.quantity + e.quantity,
              f.notional + Amount(e.price.value, e.quantity),
              f.raw + Amount(bar.bid, e.quantity),
              f.costs.Plus(OrderCosts(cfg, e.price.value, e.quantity, false)))
  {
    hide OrderCosts, BarAt, Amount;
    assert (fills + [e])[..|fills|] == fills;
  }

  /** What one bar fills of the rest of a position, once it has to leave. */
  ghost function BarFill(cfg: Config, signal: Signal, left: int, bar: OptionBar): seq<JournalEntry> {
    if left <= 0 || signal.lotSize <= 0 then []
    else
      var quantity := Fillable(cfg, left, bar.bidQuantity, signal.lotSize);
      if quantity == 0 then []
      else [JournalEntry(bar.timestamp, ExitFill, signal.signalId, signal.instrumentId, quantity, Some(ExitPrice(cfg, bar)))]
  }

  /** The exit fills that the first `n` frames call for: from the first triggering bar after the
      entry on, every bar of the instrument fills what it can of what is left. */
  ghost function DueFills(cfg: Config, frames: seq<ReplayFrame>, n: nat, signal: Signal, entryTime: int, quantity: int): seq<JournalEntry>
    requires ValidFrames(frames) && n <= |frames|
  {
    if n == 0 then []
    else
      var before := DueFills(cfg, frames, n - 1, signal, entryTime, quantity);
      var bars := FrameBars(frames[n - 1]);
      if FirstTrigger(frames, n, signal, entryTime).None? || signal.instrumentId !in bars then before
      else before + BarFill(cfg, signal, quantity - FlowsOf(cfg, frames, before).quantity, bars[signal.instrumentId])
  }

  /** What the last bar fills of a position that no bar made leave. */
  ghost function EndFills(cfg: Config, frames: seq<ReplayFrame>, signal: Signal, quantity: int): seq<JournalEntry>
    requires ValidFrames(frames)
  {
    var last := LastBar(frames, |frames|, signal.instrumentId);
    if last.None? then [] else BarFill(cfg, signal, quantity, last.value)
  }

  lemma {:induction false} NothingDue(cfg: Config, frames: seq<ReplayFrame>, n: nat, signal: Signal, entryTime: int, quantity: int)
    requires ValidFrames(frames) && n <= |frames| && FirstTrigger(frames, n, signal, entryTime).None?
    ensures DueFills(cfg, frames, n, signal, entryTime, quantity) == []
  {
    hide ExitTrigger, BarFill;
    if n > 0 { NothingDue(cfg, frames, n - 1, signal, entryTime, quantity); }
  }

  /** A closed position is due nothing more. */
  lemma {:induction false} DueStable(cfg: Config, frames: seq<ReplayFrame>, n: nat, m: nat, signal: Signal, entryTime: int, quantity: int)
    requires ValidFrames(frames) && n <= m <= |frames|
    requires FlowsOf(cfg, frames, DueFills(cfg, frames, n, signal, entryTime, quantity)).quantity == quantity
    ensures DueFills(cfg, frames, m, signal, entryTime, quantity) == DueFills(cfg, frames, n, signal, entryTime, quantity)
    decreases m
  {
    hide ExitTrigger, FlowsOf, FirstTrigger, FrameBars, Fillable, ExitPrice;
    if n < m { DueStable(cfg, frames, n, m - 1, signal, entryTime, quantity); }
  }

  ghost predicate FillOk(cfg: Config, frames: seq<ReplayFrame>, signal: Signal, e: JournalEntry)
    requires ValidFrames(frames)
  {
    && e.event == ExitFill && e.signalId == signal.signalId && e.instrumentId == signal.instrumentId
    && e.quantity > 0 && WholeLots(e.quantity, signal.lotSize)
    && BarAt(frames, e.timestamp, signal.instrumentId).Some?
    && e.price == Some(ExitPrice(cfg, BarAt(frames, e.timestamp, signal.instrumentId).value))
    && WithinCap(cfg, e.quantity, BarAt(frames, e.timestamp, signal.instrumentId).value.bidQuantity)
  }

  /** Exit fills of one signal: each on its own bar, in time order, whole lots, inside the cap. */
  ghost predicate FillsOk(cfg: Config, frames: seq<ReplayFrame>, signal: Signal, fills: seq<JournalEntry>)
    requires ValidFrames(frames)
  {
    && (forall i :: 0 <= i < |fills| ==> FillOk(cfg, frames, signal, fills[i]))
    && (forall i, k :: 0 <= i < k < |fills| ==> fills[i].timestamp < fills[k].timestamp)
  }

  /** An entry: strictly after its signal, at the frame's ask plus slippage, between the levels,
      for whole lots inside the cap. */
  ghost predicate EntryOk(cfg: Config, frames: seq<ReplayFrame>, signal: Signal, entryTime: int, price: real, quantity: int)
    requires ValidFrames(frames)
  {
    && signal.generatedAt < entryTime < signal.contractExpiry
    && (signal.validUntil.Some? ==> entryTime <= signal.validUntil.value)
    && 0 < quantity <= signal.RequestedQuantity() && WholeLots(quantity, signal.lotSize)
    && BarAt(frames, entryTime, signal.instrumentId).Some?
    && price == EntryPrice(cfg, BarAt(frames, entryTime, signal.instrumentId).value)
    && signal.stopPrice < price < signal.targetPrice
    && WithinCap(cfg, quantity, BarAt(frames, entryTime, signal.instrumentId).value.askQuantity)
  }

  function EntryRecord(signal: Signal, entryTime: int, price: real, quantity: int): JournalEntry {
    JournalEntry(entryTime, Entry, signal.signalId, signal.instrumentId, quantity, Some(price))
  }

  // ----- arithmetic -----

  lemma AmountMinus(a: real, b: real, q: int)
    ensures Amount(a - b, q) == Amount(a, q) - Amount(b, q)
  {
  }

  lemma AverageTimesQuantity(notional: real, price: real, q: int)
    requires q > 0
    ensures Amount(notional / (q as real), q) == notional
    ensures Amount(notional / (q as real) - price, q) == notional - Amount(price, q)
  {
    AmountMinus(notional / (q as real), price, q);
  }

  lemma RiskMultiple(net: real, distance: real, q: int)
    requires distance > 0.0 && q > 0
    ensures Amount(distance, q) > 0.0 && net / Amount(distance, q) * Amount(distance, q) == net
  {
    PositiveProduct(distance, q as real);
  }

  /** An order costs its brokerage, with GST on it, and per unit of value the tax and the two
      fees, with GST on the fees. */
  lemma CostsClosedForm(cfg: Config, price: real, quantity: int, isEntry: bool)
    ensures OrderCosts(cfg, price, quantity, isEntry).Total()
         == cfg.brokeragePerOrder * (1.0 + cfg.gstRate)
          + Amount(price, quantity) * ((if isEntry then cfg.entryTaxRate else cfg.exitTaxRate)
                                       + (cfg.transactionFeeRate + cfg.regulatoryFeeRate) * (1.0 + cfg.gstRate))
  {
  }

  /** Slippage only ever hurts, and never makes a sale price negative. */
  lemma PricesAreAdverse(cfg: Config, bar: OptionBar)
    requires cfg.Valid() && bar.Valid()
    ensures EntryPrice(cfg, bar) >= bar.ask && 0.0 <= ExitPrice(cfg, bar) <= bar.bid
  {
    assert bar.ask * cfg.entryBps >= 0.0 && bar.bid * cfg.exitBps >= 0.0;
  }

  // ----- one exit attempt -----

  /** The position's accumulators agree with the journal's fills. */
  ghost predicate Tallied(cfg: Config, frames: seq<ReplayFrame>, p: Position, fills: seq<JournalEntry>)
    requires ValidFrames(frames)
  {
    && p.remainingQuantity + p.exitQuantity == p.quantity
    && WholeLots(p.remainingQuantity, p.signal.lotSize)
    && FillsOk(cfg, frames, p.signal, fills)
    && FlowsOf(cfg, frames, fills)
       == Flows(p.exitQuantity, p.exitNotional, p.exitNotional + p.exitSlippage, p.exitCosts)
  }

  /** A closed trade's figures, from the journal's fills and the input bars alone. */
  ghost predicate TradeTallied(cfg: Config, frames: seq<ReplayFrame>, t: Trade, fills: seq<JournalEntry>)
    requires ValidFrames(frames)
  {
    var f := FlowsOf(cfg, frames, fills);
    && fills != [] && FillsOk(cfg, frames, t.signal, fills)
    && t.exitTime == fills[|fills| - 1].timestamp
    && f.quantity == t.quantity
    && Amount(t.exitPrice, t.quantity) == f.notional
    && t.grossPnl == f.notional - Amount(t.entryPrice, t.quantity)
    && t.exitCosts == f.costs
    && t.netPnl == t.grossPnl - t.TotalCosts()
    && RiskOk(t)
  }

  /** The risk at the stop, and the net result as a multiple of it. */
  ghost predicate RiskOk(t: Trade) {
    && t.initialRisk == Amount(t.entryPrice - t.signal.stopPrice, t.quantity) && t.initialRisk > 0.0
    && t.rMultiple * t.initialRisk == t.netPnl
  }

  ghost function FillEntry(cfg: Config, p: Position, bar: OptionBar): (e: JournalEntry)
    requires p.Sound()
    ensures cfg.Valid() && bar.Valid() ==> 0 <= e.quantity <= p.remainingQuantity
  {
    JournalEntry(bar.timestamp, ExitFill, p.signal.signalId, p.signal.instrumentId,
                 Fillable(cfg, p.remainingQuantity, bar.bidQuantity, p.signal.lotSize), Some(ExitPrice(cfg, bar)))
  }

  /** An exit attempt either leaves the fills alone or appends one good fill, and keeps the
      tally; when it closes the trade, the trade is tallied too. */
  lemma ExitTallied(cfg: Config, frames: seq<ReplayFrame>, p: Position, bar: OptionBar, reason: ExitReason,
                    fills: seq<JournalEntry>)
    requires cfg.Valid() && ValidFrames(frames) && bar.Valid() && p.Sound()
    requires Tallied(cfg, frames, p, fills)
    requires BarAt(frames, bar.timestamp, p.signal.instrumentId) == Some(bar)
    requires forall i :: 0 <= i < |fills| ==> fills[i].timestamp < bar.timestamp
    ensures var r := ExecuteExit(cfg, p, bar, reason);
      var e := FillEntry(cfg, p, bar);
      && (e.quantity == 0 ==> r.trade.None? && Tallied(cfg, frames, r.position, fills))
      && (e.quantity > 0 ==> Tallied(cfg, frames, r.position, fills + [e]))
      && (r.trade.Some? ==> e.quantity > 0)
      && (r.trade.Some? ==> TradeTallied(cfg, frames, r.trade.value, fills + [e]))
      && (r.trade.Some? ==> r.trade.value.slippageCost == p.entrySlippage + r.position.exitSlippage)
  {
    hide OrderCosts, ExitPrice, Fillable, BarAt, WithinCap, Amount, WholeLots, FlowsOf;
    var e := FillEntry(cfg, p, bar);
    var q := e.quantity;
    FillableMeaning(cfg, p.remainingQuantity, bar.bidQuantity, p.signal.lotSize);
    if q > 0 {
      FlowsAppend(cfg, frames, fills, e, bar);
      AmountMinus(bar.bid, ExitPrice(cfg, bar), q);
      WholeLotsMinus(p.remainingQuantity, q, p.signal.lotSize);
      assert FillOk(cfg, frames, p.signal, e);
      assert FillsOk(cfg, frames, p.signal, fills + [e]);
      if p.remainingQuantity == q {
        AverageTimesQuantity(p.exitNotional + Amount(ExitPrice(cfg, bar), q), p.entryPrice, p.quantity);
        RiskMultiple(ExecuteExit(cfg, p, bar, reason).trade.value.netPnl, p.entryPrice - p.signal.stopPrice, p.quantity);
      }
    }
  }
}
