/** The numbers in a report, in terms of the input alone: what an entry and an exit fill were paid
    at, how much of the visible depth they took, what they cost, and what the report adds at its
    ends. Nothing here is stated through the engine's own price, cost or fill functions. */
module ReplayValues {
  import opened Ordering
  import opened Outcomes
  import opened BacktestModels
  import opened ReplayEngine
  import opened ReplayHistory
  import opened ReplayInvariants
  import opened ReplayTheorems
  import opened ReplayPromises

  // ----- prices and depth -----

  /** The ask, raised by the entry basis points, plus the fixed amount per unit. */
  ghost predicate BoughtAt(cfg: Config, ask: real, price: real) {
    price * 10000.0 == ask * (10000.0 + cfg.entryBps) + 10000.0 * cfg.fixedEntryPerUnit
  }

  /** The bid, lowered by the exit basis points, less the fixed amount per unit, but never negative. */
  ghost predicate SoldAt(cfg: Config, bid: real, price: real) {
    var net := bid * (1.0 - cfg.exitBps / 10000.0) - cfg.fixedExitPerUnit;
    price == if net > 0.0 then net else 0.0
  }

  lemma EntryPriceLaw(cfg: Config, bar: OptionBar)
    ensures BoughtAt(cfg, bar.ask, EntryPrice(cfg, bar))
  {
    var slip := bar.ask * cfg.entryBps;
    assert slip / 10000.0 * 10000.0 == slip;
    assert bar.ask * (10000.0 + cfg.entryBps) == bar.ask * 10000.0 + slip;
  }

  lemma ExitPriceLaw(cfg: Config, bar: OptionBar)
    ensures SoldAt(cfg, bar.bid, ExitPrice(cfg, bar))
  {
    var rate := cfg.exitBps / 10000.0;
    assert bar.bid * cfg.exitBps / 10000.0 == bar.bid * rate;
    assert bar.bid * (1.0 - rate) == bar.bid - bar.bid * rate;
  }

  // ----- every journal entry -----

  ghost predicate EntryOf(cfg: Config, frames: seq<ReplayFrame>, e: JournalEntry, s: Signal)
    requires ValidFrames(frames)
  {
    var bar := BarAt(frames, e.timestamp, e.instrumentId);
    && s in AllSignals(frames) && s.signalId == e.signalId && s.instrumentId == e.instrumentId
    && bar.Some? && e.price.Some? && BoughtAt(cfg, bar.value.ask, e.price.value)
    && 0 < e.quantity <= s.lots * s.lotSize
    && (!cfg.partialFills ==> e.quantity == s.lots * s.lotSize)
    && WithinCap(cfg, e.quantity, bar.value.askQuantity)
  }

  /** Entries and exit fills at the bar's own quote; signals, skips and notes carry no amounts. */
  ghost predicate Literal(cfg: Config, frames: seq<ReplayFrame>, e: JournalEntry)
    requires ValidFrames(frames)
  {
    match e.event
    case Entry => exists s :: EntryOf(cfg, frames, e, s)
    case ExitFill =>
      var bar := BarAt(frames, e.timestamp, e.instrumentId);
      && bar.Some? && e.price.Some? && SoldAt(cfg, bar.value.bid, e.price.value)
      && e.quantity > 0 && WithinCap(cfg, e.quantity, bar.value.bidQuantity)
    case Exit => e.quantity > 0 && e.price.Some?
    case _ => e.quantity == 0 && e.price.None?
  }

  ghost predicate AllLiteral(cfg: Config, frames: seq<ReplayFrame>, j: seq<JournalEntry>)
    requires ValidFrames(frames)
  {
    forall i :: 0 <= i < |j| ==> Literal(cfg, frames, j[i])
  }

  ghost predicate Listed(frames: seq<ReplayFrame>, queue: seq<Signal>) {
    forall i :: 0 <= i < |queue| ==> queue[i] in AllSignals(frames) && queue[i].Valid()
  }

  /** What each step keeps; a position opens at its bar's ask. */
  ghost predicate ValuesInv(cfg: Config, frames: seq<ReplayFrame>, b: Book)
    requires ValidFrames(frames)
  {
    && b.Sound() && AllLiteral(cfg, frames, b.journal) && Listed(frames, b.pending)
    && forall id :: id in b.positions ==>
         && b.positions[id].signal.instrumentId == id
         && BarAt(frames, b.positions[id].entryTime, id).Some?
         && b.positions[id].entryAsk == BarAt(frames, b.positions[id].entryTime, id).value.ask
  }

  /** The bars are those of the input at their own instants. */
  ghost predicate Quoted(frames: seq<ReplayFrame>, bars: map<string, OptionBar>)
    requires ValidFrames(frames)
  {
    forall id :: id in bars ==> bars[id].Valid() && BarAt(frames, bars[id].timestamp, id) == Some(bars[id])
  }

  lemma FrameQuoted(frames: seq<ReplayFrame>, n: nat)
    requires ValidFrames(frames) && Ordered(frames) && n < |frames|
    ensures Quoted(frames, FrameBars(frames[n]))
  {
    hide BarAt;
    forall id | id in FrameBars(frames[n]) ensures BarAt(frames, frames[n].timestamp, id) == Some(FrameBars(frames[n])[id]) {
      BarAtFrame(frames, n, id);
    }
  }

  lemma LatestQuoted(frames: seq<ReplayFrame>)
    requires ValidFrames(frames) && Ordered(frames)
    ensures Quoted(frames, LatestBars(frames, |frames|))
  {
    hide BarAt, LatestBars, LastBar;
    forall id | id in LatestBars(frames, |frames|)
      ensures BarAt(frames, LatestBars(frames, |frames|)[id].timestamp, id) == Some(LatestBars(frames, |frames|)[id])
    {
      LastBarMeaning(frames, |frames|, id);
    }
  }

  lemma ExitLiteral(cfg: Config, frames: seq<ReplayFrame>, p: Position, bar: OptionBar, reason: ExitReason)
    requires cfg.Valid() && ValidFrames(frames) && bar.Valid() && p.Sound()
    requires BarAt(frames, bar.timestamp, p.signal.instrumentId) == Some(bar)
    ensures var r := ExecuteExit(cfg, p, bar, reason);
      && AllLiteral(cfg, frames, r.entries)
      && r.position.signal == p.signal && r.position.entryTime == p.entryTime && r.position.entryAsk == p.entryAsk
  {
    hide OrderCosts, ExitPrice, Fillable, Amount, BarAt, SoldAt, WithinCap;
    ExitPriceLaw(cfg, bar);
    var quantity := Fillable(cfg, p.remainingQuantity, bar.bidQuantity, p.signal.lotSize);
    if quantity != 0 { FillWithin(cfg, p.remainingQuantity, bar.bidQuantity, p.signal.lotSize); }
  }

  lemma FillWithin(cfg: Config, requested: int, visible: Option<int>, lotSize: int)
    requires cfg.Valid() && requested >= 0 && lotSize > 0 && (visible.Some? ==> visible.value >= 0)
    ensures var r := Fillable(cfg, requested, visible, lotSize);
      0 <= r <= requested && (r > 0 ==> WithinCap(cfg, r, visible))
  {
    if cfg.partialFills && visible.Some? {
      LotsUnder(Allowance(cfg, visible.value), lotSize);
    }
  }

  lemma ExitValues(cfg: Config, frames: seq<ReplayFrame>, b: Book, id: string, bar: OptionBar, reason: ExitReason)
    requires cfg.Valid() && ValidFrames(frames) && ValuesInv(cfg, frames, b) && id in b.positions && bar.Valid()
    requires BarAt(frames, bar.timestamp, id) == Some(bar)
    ensures ValuesInv(cfg, frames, ApplyExit(b, id, ExecuteExit(cfg, b.positions[id], bar, reason)))
  {
    hide ExecuteExit, Literal, BarAt, Listed;
    ExitLiteral(cfg, frames, b.positions[id], bar, reason);
  }

  lemma {:induction false} ExitPassValues(cfg: Config, frames: seq<ReplayFrame>, b: Book, todo: set<string>, bars: map<string, OptionBar>)
    requires cfg.Valid() && ValidFrames(frames) && ValidBars(bars) && Quoted(frames, bars) && ValuesInv(cfg, frames, b)
    ensures ValuesInv(cfg, frames, ExitPass(cfg, b, todo, bars))
    decreases |todo|
  {
    hide ExecuteExit, ExitTrigger, ApplyExit, Literal, BarAt, Listed, AllLiteral;
    if todo != {} {
      var id := Least(todo);
      if id in b.positions && id in bars {
        var p := b.positions[id];
        var reason := if p.exitReason.Some? then p.exitReason else ExitTrigger(p.signal, p.entryTime, bars[id]);
        if reason.Some? { ExitValues(cfg, frames, b, id, bars[id], reason.value); }
      }
      ExitPassValues(cfg, frames, ExitOne(cfg, b, id, bars), todo - {id}, bars);
    }
  }

  lemma {:induction false} EndPassValues(cfg: Config, frames: seq<ReplayFrame>, b: Book, todo: set<string>, bars: map<string, OptionBar>)
    requires cfg.Valid() && ValidFrames(frames) && ValidBars(bars) && Quoted(frames, bars) && ValuesInv(cfg, frames, b)
    ensures ValuesInv(cfg, frames, EndPass(cfg, b, todo, bars))
    decreases |todo|
  {
    hide ExecuteExit, ApplyExit, Literal, BarAt, Listed, AllLiteral;
    if todo != {} {
      var id := Least(todo);
      if id in b.positions && id in bars {
        var p := b.positions[id];
        ExitValues(cfg, frames, b, id, bars[id], if p.exitReason.Some? then p.exitReason.value else EndOfData);
      }
      EndPassValues(cfg, frames, EndOne(cfg, b, id, bars), todo - {id}, bars);
    }
  }

  lemma EntryLiteral(cfg: Config, frames: seq<ReplayFrame>, s: Signal, bar: OptionBar, timestamp: int, quantity: int)
    requires cfg.Valid() && ValidFrames(frames) && s.Valid() && s in AllSignals(frames) && bar.Valid()
    requires BarAt(frames, timestamp, s.instrumentId) == Some(bar) && s.RequestedQuantity() >= 0
    requires quantity == Fillable(cfg, s.RequestedQuantity(), bar.askQuantity, s.lotSize) && quantity != 0
    ensures Literal(cfg, frames, JournalEntry(timestamp, Entry, s.signalId, s.instrumentId, quantity, Some(EntryPrice(cfg, bar))))
  {
    hide BarAt, BoughtAt, EntryPrice, WithinCap, AllSignals;
    EntryPriceLaw(cfg, bar);
    FillWithin(cfg, s.RequestedQuantity(), bar.askQuantity, s.lotSize);
    assert EntryOf(cfg, frames, JournalEntry(timestamp, Entry, s.signalId, s.instrumentId, quantity, Some(EntryPrice(cfg, bar))), s);
  }

  lemma EnterOneValues(cfg: Config, frames: seq<ReplayFrame>, b: Book, s: Signal, timestamp: int, bars: map<string, OptionBar>)
    requires cfg.Valid() && ValidFrames(frames) && ValidBars(bars) && Quoted(frames, bars) && ValuesInv(cfg, frames, b)
    requires s in AllSignals(frames) && s.Valid() && forall id :: id in bars ==> bars[id].timestamp == timestamp
    ensures ValuesInv(cfg, frames, EnterOne(cfg, b, s, timestamp, bars))
  {
    hide BarAt, EntryPrice, Fillable, BoughtAt, AllSignals, OrderCosts, Amount, EntryAdverse, WithinCap, EntryOf, Signal.RequestedQuantity;
    Positive(s);
    if s.instrumentId in bars {
      var bar := bars[s.instrumentId];
      var quantity := Fillable(cfg, s.RequestedQuantity(), bar.askQuantity, s.lotSize);
      if quantity != 0 { EntryLiteral(cfg, frames, s, bar, timestamp, quantity); }
    }
  }

  lemma Positive(s: Signal)
    requires s.Valid()
    ensures s.RequestedQuantity() > 0
  {
  }

  lemma {:induction false} EnterPassValues(cfg: Config, frames: seq<ReplayFrame>, b: Book, queue: seq<Signal>, timestamp: int, bars: map<string, OptionBar>)
    requires cfg.Valid() && ValidFrames(frames) && ValidBars(bars) && Quoted(frames, bars) && ValuesInv(cfg, frames, b)
    requires Listed(frames, queue) && ValidSignals(queue) && forall id :: id in bars ==> bars[id].timestamp == timestamp
    ensures ValuesInv(cfg, frames, EnterPass(cfg, b, queue, timestamp, bars))
    decreases |queue|
  {
    hide EnterOne, Literal, BarAt, AllLiteral, AllSignals;
    if queue != [] {
      EnterOneValues(cfg, frames, b, queue[0], timestamp, bars);
      EnterPassValues(cfg, frames, EnterOne(cfg, b, queue[0], timestamp, bars), queue[1..], timestamp, bars);
    }
  }

  lemma {:induction false} QueuePassValues(cfg: Config, frames: seq<ReplayFrame>, b: Book, signals: seq<Signal>, timestamp: int)
    requires ValidFrames(frames) && ValuesInv(cfg, frames, b) && Listed(frames, signals) && ValidSignals(signals)
    ensures ValuesInv(cfg, frames, QueuePass(b, signals, timestamp))
    decreases |signals|
  {
    hide BarAt, AllSignals, EntryOf;
    if signals != [] { QueuePassValues(cfg, frames, QueueOne(b, signals[0], timestamp), signals[1..], timestamp); }
  }

  lemma FrameListed(frames: seq<ReplayFrame>, n: nat)
    requires ValidFrames(frames) && n < |frames|
    ensures Listed(frames, frames[n].signals)
  {
    NextSignals(frames, n);
    var q, m := |AllSignals(frames[..n])|, |frames[n].signals|;
    forall i | 0 <= i < m ensures frames[n].signals[i] in AllSignals(frames) {
      assert AllSignals(frames)[q..q + m][i] == AllSignals(frames)[q + i];
    }
  }

  lemma {:induction false} RunValues(cfg: Config, frames: seq<ReplayFrame>, n: nat)
    requires cfg.Valid() && ValidFrames(frames) && Ordered(frames) && n <= |frames|
    ensures ValuesInv(cfg, frames, RunFrames(cfg, frames, n))
  {
    hide ExitPass, EnterPass, QueuePass, AllLiteral, BarAt, AllSignals, Quoted;
    if n > 0 {
      var b, frame := RunFrames(cfg, frames, n - 1), frames[n - 1];
      var bars := FrameBars(frame);
      RunValues(cfg, frames, n - 1);
      FrameQuoted(frames, n - 1);
      FrameListed(frames, n - 1);
      ExitPassValues(cfg, frames, b, b.positions.Keys, bars);
      var exited := ExitPass(cfg, b, b.positions.Keys, bars);
      EnterPassValues(cfg, frames, exited.(pending := []), exited.pending, frame.timestamp, bars);
      QueuePassValues(cfg, frames, EnterPass(cfg, exited.(pending := []), exited.pending, frame.timestamp, bars), frame.signals, frame.timestamp);
    } else {
      NoValues(cfg, frames);
    }
  }

  lemma NoValues(cfg: Config, frames: seq<ReplayFrame>)
    requires ValidFrames(frames)
    ensures ValuesInv(cfg, frames, EMPTY_BOOK)
  {
  }

  lemma FinalValues(cfg: Config, frames: seq<ReplayFrame>)
    requires Input(cfg, frames)
    ensures ValuesInv(cfg, frames, FinalBook(cfg, frames))
  {
    hide EndPass, LatestBars, ValuesInv, Quoted;
    RunValues(cfg, frames, |frames|);
    LatestQuoted(frames);
    var b := RunFrames(cfg, frames, |frames|);
    EndPassValues(cfg, frames, b, b.positions.Keys, LatestBars(frames, |frames|));
  }

  /** In every report each ENTRY is bought at the slipped ask of its bar, each EXIT_FILL sold at the
      slipped bid of its bar, both within the depth the bar shows; in full-fill mode an entry takes
      all its signal asks for. */
  lemma JournalPrices(cfg: Config, frames: seq<ReplayFrame>)
    requires Input(cfg, frames)
    ensures AllLiteral(cfg, frames, ReportOf(cfg, frames).journal)
    ensures var r := ReportOf(cfg, frames);
      forall id :: id in r.openPositions ==>
        var bar := BarAt(frames, r.openPositions[id].entryTime, id); bar.Some? && r.openPositions[id].entryAsk == bar.value.ask
  {
    hide FinalBook, NetPnl, BarAt, Listed;
    FinalValues(cfg, frames);
    var b := FinalBook(cfg, frames);
    var notes := Leftovers(b.pending, frames[|frames| - 1].timestamp);
    forall i | 0 <= i < |b.journal + notes| ensures Literal(cfg, frames, (b.journal + notes)[i]) {
      if i < |b.journal| { assert (b.journal + notes)[i] == b.journal[i]; } else { assert (b.journal + notes)[i] == notes[i - |b.journal|]; }
    }
  }

  // ----- the ends of a report -----

  /** A report spans its frames, and its journal ends with one note, at the last instant, for each
      signal that is still pending, in queue order. */
  lemma ReportEnds(cfg: Config, frames: seq<ReplayFrame>)
    requires Input(cfg, frames)
    ensures var r := ReportOf(cfg, frames);
      && r.startedAt == frames[0].timestamp && r.endedAt == frames[|frames| - 1].timestamp && r.initialCapital == cfg.initialCapital
      && |r.pending| <= |r.journal|
      && (forall i :: 0 <= i < |r.pending| ==>
            r.journal[|r.journal| - |r.pending| + i]
              == JournalEntry(r.endedAt, Unfilled, r.pending[i].signalId, r.pending[i].instrumentId, 0, None))
  {
    hide FinalBook, NetPnl, Leftovers;
    var b, ended := FinalBook(cfg, frames), frames[|frames| - 1].timestamp;
    NotesAt(b.journal, b.pending, ended);
  }

  lemma NotesAt(journal: seq<JournalEntry>, pending: seq<Signal>, at: int)
    ensures var all := journal + Leftovers(pending, at);
      && |all| == |journal| + |pending|
      && forall i :: 0 <= i < |pending| ==>
           all[|all| - |pending| + i] == JournalEntry(at, Unfilled, pending[i].signalId, pending[i].instrumentId, 0, None)
  {
    forall i | 0 <= i < |pending| ensures Leftovers(pending, at)[i] == JournalEntry(at, Unfilled, pending[i].signalId, pending[i].instrumentId, 0, None) {}
  }

  // ----- costs, one by one -----

  /** The costs of `orders` orders with total value `value`, at the given tax rate. */
  ghost predicate CostsOf(cfg: Config, c: CostBreakdown, orders: nat, value: real, taxRate: real) {
    && c.brokerage == cfg.brokeragePerOrder * (orders as real)
    && c.taxes == value * taxRate
    && c.transactionFees == value * cfg.transactionFeeRate
    && c.regulatoryFees == value * cfg.regulatoryFeeRate
    && c.gst == (c.brokerage + c.transactionFees + c.regulatoryFees) * cfg.gstRate
  }

  /** The same, of a quantity at one price. */
  ghost predicate PricedCosts(cfg: Config, c: CostBreakdown, orders: nat, price: real, quantity: int, taxRate: real) {
    CostsOf(cfg, c, orders, price * (quantity as real), taxRate)
  }

  lemma OneOrder(cfg: Config, price: real, quantity: int, isEntry: bool)
    ensures PricedCosts(cfg, OrderCosts(cfg, price, quantity, isEntry), 1, price, quantity,
                        if isEntry then cfg.entryTaxRate else cfg.exitTaxRate)
  {
  }

  lemma OneFill(cfg: Config, price: real, quantity: int)
    ensures CostsOf(cfg, OrderCosts(cfg, price, quantity, false), 1, Amount(price, quantity), cfg.exitTaxRate)
  {
  }

  lemma CostsAdd(cfg: Config, c: CostBreakdown, d: CostBreakdown, n: nat, m: nat, v: real, w: real, taxRate: real)
    requires CostsOf(cfg, c, n, v, taxRate) && CostsOf(cfg, d, m, w, taxRate)
    ensures CostsOf(cfg, c.Plus(d), n + m, v + w, taxRate)
  {
    Spread(v, w, taxRate);
    Spread(v, w, cfg.transactionFeeRate);
    Spread(v, w, cfg.regulatoryFeeRate);
    Spread(n as real, m as real, cfg.brokeragePerOrder);
    Spread(c.brokerage + c.transactionFees + c.regulatoryFees, d.brokerage + d.transactionFees + d.regulatoryFees, cfg.gstRate);
  }

  lemma Spread(x: real, y: real, rate: real)
    ensures (x + y) * rate == x * rate + y * rate && rate * (x + y) == rate * x + rate * y
  {
  }

  lemma {:induction false} FillCosts(cfg: Config, frames: seq<ReplayFrame>, signal: Signal, fills: seq<JournalEntry>)
    requires ValidFrames(frames) && FillsOk(cfg, frames, signal, fills)
    ensures var f := FlowsOf(cfg, frames, fills); CostsOf(cfg, f.costs, |fills|, f.notional, cfg.exitTaxRate)
  {
    hide OrderCosts, BarAt, CostsOf, WithinCap, ExitPrice, WholeLots;
    if fills == [] {
      NoOrders(cfg);
    } else {
      var n := |fills| - 1;
      var e := fills[n];
      FillCosts(cfg, frames, signal, fills[..n]);
      assert FillOk(cfg, frames, signal, e);
      OneFill(cfg, e.price.value, e.quantity);
      var before := FlowsOf(cfg, frames, fills[..n]);
      CostsAdd(cfg, before.costs, OrderCosts(cfg, e.price.value, e.quantity, false), n, 1,
               before.notional, Amount(e.price.value, e.quantity), cfg.exitTaxRate);
      assert |fills| == n + 1;
    }
  }

  lemma NoOrders(cfg: Config)
    ensures CostsOf(cfg, NO_COSTS, 0, 0.0, cfg.exitTaxRate)
  {
  }

  /** A closed trade against its story: the costs one by one, and the note that closes it. */
  lemma StoryCosts(cfg: Config, frames: seq<ReplayFrame>, j: seq<JournalEntry>, t: Trade)
    requires Input(cfg, frames) && TradeInv(cfg, frames, t, Story(j, t.signal.signalId))
    ensures var fills := FillsOf(j, t.signal.signalId);
      && PricedCosts(cfg, t.entryCosts, 1, t.entryPrice, t.quantity, cfg.entryTaxRate)
      && PricedCosts(cfg, t.exitCosts, |fills|, t.exitPrice, t.quantity, cfg.exitTaxRate)
    ensures ExitRecord(t) in j
  {
    hide Story, BarAt, EntryOk, FlowsOf, FillsOk, OrderCosts, FillsOf, CalledFor, RiskOk, PricedCosts, WholeLots, Amount,
      TradeTallied, ExitRecord;
    var story := Story(j, t.signal.signalId);
    var fills := story[2..|story| - 1];
    OneOrder(cfg, t.entryPrice, t.quantity, true);
    TradeFills(cfg, frames, j, t);
    ExitCosts(cfg, frames, t, fills);
    StoryWithin(j, t.signal.signalId, |story| - 1);
  }

  lemma TradeFills(cfg: Config, frames: seq<ReplayFrame>, j: seq<JournalEntry>, t: Trade)
    requires Input(cfg, frames) && TradeInv(cfg, frames, t, Story(j, t.signal.signalId))
    ensures var story := Story(j, t.signal.signalId); FillsOf(j, t.signal.signalId) == story[2..|story| - 1]
  {
    hide Story, BarAt, EntryOk, FlowsOf, FillsOk, OrderCosts, FillsOf, CalledFor, RiskOk, WholeLots, Amount;
    var story := Story(j, t.signal.signalId);
    var fills := story[2..|story| - 1];
    assert story == [story[0], story[1]] + fills + [story[|story| - 1]];
    StoryFills(cfg, frames, j, t.signal, [story[0], story[1]], fills, [story[|story| - 1]]);
  }

  lemma ExitCosts(cfg: Config, frames: seq<ReplayFrame>, t: Trade, fills: seq<JournalEntry>)
    requires ValidFrames(frames) && TradeTallied(cfg, frames, t, fills)
    ensures PricedCosts(cfg, t.exitCosts, |fills|, t.exitPrice, t.quantity, cfg.exitTaxRate)
  {
    hide FlowsOf, FillsOk, RiskOk;
    FillCosts(cfg, frames, t.signal, fills);
  }

  lemma {:induction false} StoryWithin(j: seq<JournalEntry>, id: string, k: nat)
    requires k < |Story(j, id)|
    ensures Story(j, id)[k] in j
  {
    if j != [] && k < |Story(j[..|j| - 1], id)| {
      StoryWithin(j[..|j| - 1], id, k);
      assert forall i :: 0 <= i < |j| - 1 ==> j[..|j| - 1][i] == j[i];
    }
  }

  /** Each component of a closed trade's costs: one order and its value for the entry, one order per
      exit fill and their summed value for the exit. The journal closes the trade with its whole
      quantity at its average exit price. */
  lemma TradeCosts(cfg: Config, frames: seq<ReplayFrame>, i: nat)
    requires Input(cfg, frames) && i < |ReportOf(cfg, frames).trades|
    ensures var r := ReportOf(cfg, frames);
      var t := r.trades[i];
      var fills := FillsOf(r.journal, t.signal.signalId);
      && PricedCosts(cfg, t.entryCosts, 1, t.entryPrice, t.quantity, cfg.entryTaxRate)
      && PricedCosts(cfg, t.exitCosts, |fills|, t.exitPrice, t.quantity, cfg.exitTaxRate)
      && JournalEntry(t.exitTime, Exit, t.signal.signalId, t.signal.instrumentId, t.quantity, Some(t.exitPrice)) in r.journal
  {
    hide FinalBook, NetPnl, Story, PositionsInv, PendingInv, SignalsInv, TradeInv, FillsOf, Disjoint, PricedCosts;
    FinalInv(cfg, frames);
    ReportStories(cfg, frames);
    StoryCosts(cfg, frames, ReportOf(cfg, frames).journal, ReportOf(cfg, frames).trades[i]);
  }
}
