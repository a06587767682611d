/** The replay as it runs: open positions are objects updated by their exit attempts, and the
    pending list, positions, trades and journal change frame by frame. Each operation is tied to
    the function on book values that the engine's promises are proved about. */
module ReplayRun {
  import opened Ordering
  import opened Outcomes
  import opened BacktestModels
  import opened ReplayEngine

  class OpenPosition {
    const signal: Signal
    const entryTime: int
    const entryPrice: real
    const entryAsk: real
    const quantity: int
    const entryCosts: CostBreakdown
    const entrySlippage: real
    var remainingQuantity: int
    var exitQuantity: int
    var exitNotional: real
    var exitCosts: CostBreakdown
    var exitSlippage: real
    var exitReason: Option<ExitReason>
    var lastExitTime: Option<int>
    var lastExitAttempt: Option<int>

    function Value(): Position
      reads this
    {
      Position(signal, entryTime, entryPrice, entryAsk, quantity, remainingQuantity, entryCosts, entrySlippage,
               exitQuantity, exitNotional, exitCosts, exitSlippage, exitReason, lastExitTime, lastExitAttempt)
    }

    constructor (cfg: Config, signal: Signal, bar: OptionBar, timestamp: int, quantity: int)
      ensures Value() == OpenAt(cfg, signal, bar, timestamp, quantity)
    {
      var price := EntryPrice(cfg, bar);
      this.signal, entryTime, entryPrice, entryAsk := signal, timestamp, price, bar.ask;
      this.quantity, remainingQuantity := quantity, quantity;
      entryCosts, entrySlippage := OrderCosts(cfg, price, quantity, true), Amount(EntryAdverse(cfg, bar), quantity);
      exitQuantity, exitNotional, exitCosts, exitSlippage := 0, 0.0, NO_COSTS, 0.0;
      exitReason, lastExitTime, lastExitAttempt := None, None, None;
    }

    /** One exit attempt; the journal entries it makes, and the trade if it closes the position. */
    method ExecuteExit(cfg: Config, bar: OptionBar, reason: ExitReason) returns (entries: seq<JournalEntry>, trade: Option<Trade>)
      requires cfg.Valid() && bar.Valid() && Value().Sound()
      modifies this
      ensures ExitOutcome(Value(), entries, trade) == ReplayEngine.ExecuteExit(cfg, old(Value()), bar, reason)
    {
      hide OrderCosts, ExitPrice, Amount;
      var actual := if exitReason.Some? then exitReason.value else reason;
      exitReason, lastExitAttempt := Some(actual), Some(bar.timestamp);
      var filled := Fillable(cfg, remainingQuantity, bar.bidQuantity, signal.lotSize);
      if filled == 0 {
        return [SignalEntry(Unfilled, bar.timestamp, signal)], None;
      }
      var price := ExitPrice(cfg, bar);
      remainingQuantity := remainingQuantity - filled;
      exitQuantity := exitQuantity + filled;
      exitNotional := exitNotional + Amount(price, filled);
      exitCosts := exitCosts.Plus(OrderCosts(cfg, price, filled, false));
      exitSlippage := exitSlippage + Amount(bar.bid - price, filled);
      lastExitTime := Some(bar.timestamp);
      entries := [JournalEntry(bar.timestamp, ExitFill, signal.signalId, signal.instrumentId, filled, Some(price))];
      if remainingQuantity > 0 {
        return entries, None;
      }
      var closed := CloseTrade(Value(), actual, bar.timestamp);
      entries := entries + [JournalEntry(closed.exitTime, Exit, signal.signalId, signal.instrumentId, closed.quantity, Some(closed.exitPrice))];
      trade := Some(closed);
    }
  }

  lemma SoundAt(b: Book, id: string)
    requires b.Sound() && id in b.positions
    ensures b.positions[id].Sound()
  {
  }

  class Replay {
    const cfg: Config
    var pending: seq<Signal>
    var positions: map<string, OpenPosition>
    var trades: seq<Trade>
    var journal: seq<JournalEntry>

    /** No object is held under two instruments. */
    ghost predicate Separate()
      reads this
    {
      forall a, b :: a in positions && b in positions && a != b ==> positions[a] != positions[b]
    }

    ghost function Value(): Book
      reads this, positions.Values
    {
      Book(pending, map id | id in positions :: positions[id].Value(), trades, journal)
    }

    ghost predicate Valid()
      reads this, positions.Values
    {
      cfg.Valid() && Separate() && Value().Sound()
    }

    constructor (cfg: Config)
      requires cfg.Valid()
      ensures Valid() && this.cfg == cfg && Value() == EMPTY_BOOK && positions == map[]
    {
      this.cfg := cfg;
      pending, positions, trades, journal := [], map[], [], [];
    }

    /** One exit attempt of the position held under `id`. */
    method AttemptExit(id: string, bar: OptionBar, reason: ExitReason)
      requires Valid() && bar.Valid() && id in positions
      modifies this, positions[id]
      ensures Valid() && positions.Values <= old(positions.Values)
      ensures Value() == ApplyExit(old(Value()), id, ReplayEngine.ExecuteExit(cfg, old(Value()).positions[id], bar, reason))
    {
      hide ReplayEngine.ExecuteExit, Book.Sound, Position.Sound, OptionBar.Valid, OpenPosition.Value;
      ghost var before := Value();
      var position := positions[id];
      assert before.positions[id] == position.Value();
      SoundAt(before, id);
      var entries, trade := position.ExecuteExit(cfg, bar, reason);
      journal := journal + entries;
      if trade.Some? {
        trades := trades + [trade.value];
        positions := positions - {id};
      }
      assert Value().positions == ApplyExit(before, id, ExitOutcome(position.Value(), entries, trade)).positions;
    }

    /** Open positions, in the order of their instruments, meet the frame's bars. */
    method RunExits(bars: map<string, OptionBar>)
      requires Valid() && ValidBars(bars)
      modifies this, positions.Values
      ensures Valid() && positions.Values <= old(positions.Values)
      ensures Value() == ExitPass(cfg, old(Value()), old(Value().positions.Keys), bars)
    {
      hide ReplayEngine.ExecuteExit, ApplyExit, ExitTrigger;
      var todo := positions.Keys;
      assert todo == Value().positions.Keys;
      while todo != {}
        invariant Valid() && positions.Values <= old(positions.Values)
        invariant ExitPass(cfg, Value(), todo, bars) == ExitPass(cfg, old(Value()), old(Value().positions.Keys), bars)
        decreases |todo|
      {
        var id := Least(todo);
        ghost var before := Value();
        if id in positions && id in bars {
          var position := positions[id];
          var reason := if position.exitReason.Some? then position.exitReason else ExitTrigger(position.signal, position.entryTime, bars[id]);
          if reason.Some? { AttemptExit(id, bars[id], reason.value); }
        }
        assert Value() == ExitOne(cfg, before, id, bars);
        todo := todo - {id};
      }
    }

    /** What is still open when the data ends is offered its latest bar, unless it used it. */
    method LiquidateAtEnd(latest: map<string, OptionBar>)
      requires Valid() && ValidBars(latest)
      modifies this, positions.Values
      ensures Valid() && positions.Values <= old(positions.Values)
      ensures Value() == EndPass(cfg, old(Value()), old(Value().positions.Keys), latest)
    {
      hide ReplayEngine.ExecuteExit, ApplyExit;
      var todo := positions.Keys;
      assert todo == Value().positions.Keys;
      while todo != {}
        invariant Valid() && positions.Values <= old(positions.Values)
        invariant EndPass(cfg, Value(), todo, latest) == EndPass(cfg, old(Value()), old(Value().positions.Keys), latest)
        decreases |todo|
      {
        var id := Least(todo);
        ghost var before := Value();
        if id in positions && id in latest {
          var position, bar := positions[id], latest[id];
          if bar.timestamp >= position.entryTime && position.lastExitAttempt != Some(bar.timestamp) {
            AttemptExit(id, bar, if position.exitReason.Some? then position.exitReason.value else EndOfData);
          }
        }
        assert Value() == EndOne(cfg, before, id, latest);
        todo := todo - {id};
      }
    }

    /** Opens a position under a free instrument and notes its entry. */
    method Open(signal: Signal, bar: OptionBar, timestamp: int, quantity: int)
      requires Valid() && signal.instrumentId !in positions && OpenAt(cfg, signal, bar, timestamp, quantity).Sound()
      modifies this
      ensures Valid() && pending == old(pending)
      ensures forall o :: o in positions.Values ==> o in old(positions.Values) || fresh(o)
      ensures var b := old(Value());
        Value() == b.(positions := b.positions[signal.instrumentId := OpenAt(cfg, signal, bar, timestamp, quantity)],
                      journal := b.journal + [JournalEntry(timestamp, Entry, signal.signalId, signal.instrumentId, quantity, Some(EntryPrice(cfg, bar)))])
    {
      hide OpenAt, EntryPrice, Position.Sound;
      ghost var before := Value();
      var position := new OpenPosition(cfg, signal, bar, timestamp, quantity);
      positions := positions[signal.instrumentId := position];
      journal := journal + [JournalEntry(timestamp, Entry, signal.signalId, signal.instrumentId, quantity, Some(EntryPrice(cfg, bar)))];
      assert Value().positions == before.positions[signal.instrumentId := OpenAt(cfg, signal, bar, timestamp, quantity)];
    }

    method Note(entry: JournalEntry)
      requires Valid()
      modifies this`journal
      ensures Valid() && Value() == old(Value()).(journal := old(journal) + [entry])
    {
      hide Position.Sound;
      ghost var before := Value();
      journal := journal + [entry];
      assert Value().positions == before.positions;
    }

    /** One queued signal meets the frame; true if it stays queued. */
    method EnterSignal(signal: Signal, timestamp: int, bars: map<string, OptionBar>, ghost kept: seq<Signal>) returns (stays: bool)
      requires Valid() && ValidBars(bars) && signal.Valid() && ValidSignals(kept)
      modifies this
      ensures Valid() && pending == old(pending)
      ensures forall o :: o in positions.Values ==> o in old(positions.Values) || fresh(o)
      ensures Value().(pending := if stays then kept + [signal] else kept)
           == EnterOne(cfg, old(Value()).(pending := kept), signal, timestamp, bars)
    {
      hide EntryPrice, OpenAt, Fillable, Signal.RequestedQuantity, Position.Sound;
      Requested(signal);
      if timestamp <= signal.generatedAt { return true; }
      if timestamp >= signal.contractExpiry || (signal.validUntil.Some? && timestamp > signal.validUntil.value) {
        Note(SignalEntry(Skipped, timestamp, signal));
        return false;
      }
      if signal.instrumentId !in bars { return true; }
      if signal.instrumentId in positions {
        Note(SignalEntry(Skipped, timestamp, signal));
        return false;
      }
      var bar := bars[signal.instrumentId];
      var quantity := Fillable(cfg, signal.RequestedQuantity(), bar.askQuantity, signal.lotSize);
      if quantity == 0 {
        Note(SignalEntry(Unfilled, timestamp, signal));
        return true;
      }
      if !(signal.stopPrice < EntryPrice(cfg, bar) < signal.targetPrice) {
        Note(SignalEntry(Skipped, timestamp, signal));
        return false;
      }
      OpensSound(cfg, signal, bar, timestamp, quantity);
      Open(signal, bar, timestamp, quantity);
      return false;
    }

    /** Queued signals, in their order, meet the frame. */
    method ExecutePending(timestamp: int, bars: map<string, OptionBar>)
      requires Valid() && ValidBars(bars)
      modifies this
      ensures Valid()
      ensures forall o :: o in positions.Values ==> o in old(positions.Values) || fresh(o)
      ensures Value() == EnterPass(cfg, old(Value()).(pending := []), old(pending), timestamp, bars)
    {
      hide EnterOne, Position.Sound;
      var queue, still := pending, [];
      for i := 0 to |queue|
        invariant Valid() && pending == queue && ValidSignals(still) && ValidSignals(queue)
        invariant forall o :: o in positions.Values ==> o in old(positions.Values) || fresh(o)
        invariant EnterPass(cfg, Value().(pending := still), queue[i..], timestamp, bars)
               == EnterPass(cfg, old(Value()).(pending := []), old(pending), timestamp, bars)
      {
        assert queue[i..][1..] == queue[i + 1..];
        var stays := EnterSignal(queue[i], timestamp, bars, still);
        if stays { still := still + [queue[i]]; }
      }
      pending := still;
    }

    method Enqueue(signal: Signal, timestamp: int)
      requires Valid() && signal.Valid()
      modifies this`pending, this`journal
      ensures Valid() && Value() == QueueOne(old(Value()), signal, timestamp)
    {
      hide Position.Sound;
      ghost var before := Value();
      pending := pending + [signal];
      journal := journal + [SignalEntry(SignalQueued, timestamp, signal)];
      assert Value().positions == before.positions;
    }

    method QueueSignals(signals: seq<Signal>, timestamp: int)
      requires Valid() && ValidSignals(signals)
      modifies this
      ensures Valid() && positions == old(positions)
      ensures Value() == QueuePass(old(Value()), signals, timestamp)
    {
      hide Position.Sound, QueueOne, Book.Sound;
      for i := 0 to |signals|
        invariant Valid() && positions == old(positions)
        invariant QueuePass(Value(), signals[i..], timestamp) == QueuePass(old(Value()), signals, timestamp)
      {
        assert signals[i..][1..] == signals[i + 1..];
        Enqueue(signals[i], timestamp);
      }
    }
  }

  lemma Requested(s: Signal)
    requires s.Valid()
    ensures s.RequestedQuantity() > 0
  {
  }

  lemma OpensSound(cfg: Config, s: Signal, bar: OptionBar, timestamp: int, quantity: int)
    requires s.Valid() && s.stopPrice < EntryPrice(cfg, bar) && quantity > 0
    ensures OpenAt(cfg, s, bar, timestamp, quantity).Sound()
  {
    hide EntryPrice, OrderCosts, Amount, EntryAdverse;
  }

  /** All frames in order, and the latest bar of each instrument. */
  method ReplayFrames(cfg: Config, frames: seq<ReplayFrame>) returns (replay: Replay, latest: map<string, OptionBar>)
    requires cfg.Valid() && ValidFrames(frames)
    ensures fresh(replay) && fresh(replay.positions.Values) && replay.Valid() && replay.cfg == cfg
    ensures replay.Value() == RunFrames(cfg, frames, |frames|)
    ensures latest == LatestBars(frames, |frames|)
  {
    hide ExitPass, EnterPass, QueuePass, Book.Sound;
    replay := new Replay(cfg);
    latest := map[];
    for k := 0 to |frames|
      invariant fresh(replay) && fresh(replay.positions.Values) && replay.Valid() && replay.cfg == cfg
      invariant replay.Value() == RunFrames(cfg, frames, k)
      invariant latest == LatestBars(frames, k)
    {
      var frame := frames[k];
      var bars := FrameBars(frame);
      latest := latest + bars;
      replay.RunExits(bars);
      replay.ExecutePending(frame.timestamp, bars);
      replay.QueueSignals(frame.signals, frame.timestamp);
    }
  }

  /** Replays the frames; refuses exactly the sequences that validation refuses. */
  method Run(cfg: Config, frames: seq<ReplayFrame>) returns (r: Result<Report>)
    requires cfg.Valid() && ValidFrames(frames)
    ensures r.Ok? <==> ValidSequence(frames)
    ensures r.Ok? ==> r.value == ReportOf(cfg, frames)
  {
    hide EndPass, RunFrames, LatestBars, NetPnl;
    var ok := ValidateSequence(frames);
    if !ok { return Err("invalid replay sequence"); }
    var replay, latest := ReplayFrames(cfg, frames);
    replay.LiquidateAtEnd(latest);
    var ended := frames[|frames| - 1].timestamp;
    var net := TotalNetPnl(replay.trades);
    var open := map id | id in replay.positions :: replay.positions[id].Value();
    assert open == replay.Value().positions;
    return Ok(Report(frames[0].timestamp, ended, cfg.initialCapital, cfg.initialCapital + net,
                     replay.trades, replay.journal + Leftovers(replay.pending, ended), open, replay.pending));
  }
}
