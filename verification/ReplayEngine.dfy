/** The replay engine: completed bars first move existing positions, then queued signals may
    enter, then the frame's own signals are queued; a last pass liquidates what is left. */
module ReplayEngine {
  import opened Ordering
  import opened Outcomes
  import opened BacktestModels

  const BASIS_POINTS := 10000.0

  // ----- prices, costs, fills and triggers -----

  /** A quantity valued at a price. */
  function Amount(price: real, quantity: int): real {
    price * (quantity as real)
  }

  function OrderCosts(cfg: Config, price: real, quantity: int, isEntry: bool): CostBreakdown {
    var notional := Amount(price, quantity);
    var transaction := notional * cfg.transactionFeeRate;
    var regulatory := notional * cfg.regulatoryFeeRate;
    CostBreakdown(
      cfg.brokeragePerOrder,
      notional * (if isEntry then cfg.entryTaxRate else cfg.exitTaxRate),
      transaction, regulatory,
      (cfg.brokeragePerOrder + transaction + regulatory) * cfg.gstRate)
  }

  function EntryAdverse(cfg: Config, bar: OptionBar): real {
    bar.ask * cfg.entryBps / BASIS_POINTS + cfg.fixedEntryPerUnit
  }

  function EntryPrice(cfg: Config, bar: OptionBar): real {
    bar.ask + EntryAdverse(cfg, bar)
  }

  function ExitPrice(cfg: Config, bar: OptionBar): real {
    var adverse := bar.bid * cfg.exitBps / BASIS_POINTS + cfg.fixedExitPerUnit;
    if bar.bid - adverse > 0.0 then bar.bid - adverse else 0.0
  }

  /** How much of the visible quantity an order may take. */
  function Allowance(cfg: Config, visible: int): real {
    visible as real * cfg.maximumParticipationRate
  }

  function FloorToLots(quantity: int, lotSize: int): int
    requires lotSize > 0
  {
    quantity / lotSize * lotSize
  }

  /** With partial fills on, the most whole lots that the visible quantity allows. */
  function Fillable(cfg: Config, requested: int, visible: Option<int>, lotSize: int): (r: int)
    requires requested >= 0 && lotSize > 0
    ensures cfg.Valid() && (visible.Some? ==> visible.value >= 0) ==> 0 <= r <= requested
    ensures !cfg.partialFills ==> r == requested
  {
    if !cfg.partialFills then requested
    else if visible.None? then 0
    else
      var lots := FloorToLots(Allowance(cfg, visible.value).Floor, lotSize);
      if requested < lots then requested else lots
  }

  /** With partial fills on, no more than the participating share of what the bar shows. */
  ghost predicate WithinCap(cfg: Config, quantity: int, visible: Option<int>) {
    cfg.partialFills ==>
      visible.Some? && quantity as real <= visible.value as real * cfg.maximumParticipationRate
  }

  /** `quantity` is a whole number of lots. */
  ghost predicate WholeLots(quantity: int, lotSize: int) {
    exists n: int :: Product(n, lotSize) == quantity
  }

  ghost function Product(n: int, m: int): int {
    n * m
  }

  lemma WholeLotsMinus(a: int, b: int, lotSize: int)
    requires WholeLots(a, lotSize) && WholeLots(b, lotSize)
    ensures WholeLots(a - b, lotSize)
  {
    var n :| Product(n, lotSize) == a;
    var m :| Product(m, lotSize) == b;
    assert Product(n - m, lotSize) == a - b;
  }

  lemma FloorLots(part: int, lotSize: int)
    requires lotSize > 0
    ensures FloorToLots(part, lotSize) <= part < FloorToLots(part, lotSize) + lotSize
    ensures WholeLots(FloorToLots(part, lotSize), lotSize)
  {
    assert Product(part / lotSize, lotSize) == part / lotSize * lotSize;
    assert part == part / lotSize * lotSize + part % lotSize;
  }

  /** Whole lots under a limit: they fit, and one more does not. */
  lemma LotsUnder(limit: real, lotSize: int)
    requires lotSize > 0
    ensures var lots := FloorToLots(limit.Floor, lotSize);
      && WholeLots(lots, lotSize) && lots as real <= limit < (lots + lotSize) as real
  {
    hide FloorToLots, WholeLots;
    FloorLots(limit.Floor, lotSize);
  }

  /** Fills are whole lots within the participation cap, and one more lot would break it. */
  lemma FillableMeaning(cfg: Config, requested: int, visible: Option<int>, lotSize: int)
    requires cfg.Valid() && requested >= 0 && lotSize > 0 && WholeLots(requested, lotSize)
    requires visible.Some? ==> visible.value >= 0
    ensures var r := Fillable(cfg, requested, visible, lotSize);
      && 0 <= r <= requested && WholeLots(r, lotSize)
      && (r > 0 ==> WithinCap(cfg, r, visible))
      && (r < requested ==> cfg.partialFills && !WithinCap(cfg, r + lotSize, visible))
  {
    hide Product, WholeLots, FloorToLots;
    NoLots(lotSize);
    if cfg.partialFills && visible.Some? {
      LotsUnder(Allowance(cfg, visible.value), lotSize);
    }
  }

  lemma NoLots(lotSize: int)
    ensures WholeLots(0, lotSize)
  {
    assert Product(0, lotSize) == 0;
  }

  /** A bar that touches both levels counts as a stop: its path inside the bar is unknown. */
  function ExitTrigger(signal: Signal, entryTime: int, bar: OptionBar): Option<ExitReason> {
    if bar.low <= signal.stopPrice then Some(Stop)
    else if bar.high >= signal.targetPrice then Some(Target)
    else if bar.timestamp >= signal.contractExpiry then Some(Expiry)
    else if signal.maxHolding.Some? && bar.timestamp >= entryTime + signal.maxHolding.value then Some(Time)
    else None
  }

  // ----- the book and its elementary steps -----

  datatype Book = Book(
    pending: seq<Signal>, positions: map<string, Position>, trades: seq<Trade>, journal: seq<JournalEntry>)
  {
    predicate Sound() {
      && (forall id :: id in positions ==> positions[id].Sound())
      && (forall i :: 0 <= i < |pending| ==> pending[i].Valid())
    }
  }

  function SignalEntry(event: Event, timestamp: int, signal: Signal): JournalEntry {
    JournalEntry(timestamp, event, signal.signalId, signal.instrumentId, 0, None)
  }

  datatype ExitOutcome = ExitOutcome(position: Position, entries: seq<JournalEntry>, trade: Option<Trade>)

  lemma PositiveProduct(x: real, y: real)
    requires x > 0.0 && y > 0.0
    ensures x * y > 0.0
  {
  }

  function CloseTrade(p: Position, reason: ExitReason, exitTime: int): Trade
    requires p.exitQuantity > 0 && p.quantity > 0 && p.signal.stopPrice < p.entryPrice
  {
    var exitPrice := p.exitNotional / (p.exitQuantity as real);
    var gross := Amount(exitPrice - p.entryPrice, p.quantity);
    var net := gross - (p.entryCosts.Total() + p.exitCosts.Total());
    var risk := Amount(p.entryPrice - p.signal.stopPrice, p.quantity);
    assert risk > 0.0 by { PositiveProduct(p.entryPrice - p.signal.stopPrice, p.quantity as real); }
    Trade(p.signal, p.entryTime, exitTime, p.entryPrice, exitPrice, p.quantity, reason,
          p.entryCosts, p.exitCosts, gross, net, risk,
          net / risk, p.entrySlippage + p.exitSlippage)
  }

  /** One exit attempt against one bar. */
  function ExecuteExit(cfg: Config, p: Position, bar: OptionBar, reason: ExitReason): (r: ExitOutcome)
    requires cfg.Valid() && bar.Valid() && p.Sound()
    ensures r.trade.None? ==> r.position.Sound()
  {
    var actual := if p.exitReason.Some? then p.exitReason.value else reason;
    var attempted := p.(exitReason := Some(actual), lastExitAttempt := Some(bar.timestamp));
    var quantity := Fillable(cfg, p.remainingQuantity, bar.bidQuantity, p.signal.lotSize);
    if quantity == 0 then
      ExitOutcome(attempted, [SignalEntry(Unfilled, bar.timestamp, p.signal)], None)
    else
      var price := ExitPrice(cfg, bar);
      var filled := attempted.(
        remainingQuantity := p.remainingQuantity - quantity,
        exitQuantity := p.exitQuantity + quantity,
        exitNotional := p.exitNotional + Amount(price, quantity),
        exitCosts := p.exitCosts.Plus(OrderCosts(cfg, price, quantity, false)),
        exitSlippage := p.exitSlippage + Amount(bar.bid - price, quantity),
        lastExitTime := Some(bar.timestamp));
      var fill := JournalEntry(bar.timestamp, ExitFill, p.signal.signalId, p.signal.instrumentId, quantity, Some(price));
      if filled.remainingQuantity > 0 then
        ExitOutcome(filled, [fill], None)
      else
        var trade := CloseTrade(filled, actual, bar.timestamp);
        var exit := JournalEntry(trade.exitTime, Exit, p.signal.signalId, p.signal.instrumentId,
                                 trade.quantity, Some(trade.exitPrice));
        ExitOutcome(filled, [fill, exit], Some(trade))
  }

  function ApplyExit(b: Book, id: string, r: ExitOutcome): (b': Book)
    requires b.Sound() && (r.trade.None? ==> r.position.Sound())
    ensures b'.Sound()
  {
    b.(positions := if r.trade.Some? then b.positions - {id} else b.positions[id := r.position],
       trades := if r.trade.Some? then b.trades + [r.trade.value] else b.trades,
       journal := b.journal + r.entries)
  }

  ghost predicate ValidBars(bars: map<string, OptionBar>) {
    forall id :: id in bars ==> bars[id].Valid()
  }

  /** An open position meets its bar of this frame, if there is one. */
  function ExitOne(cfg: Config, b: Book, id: string, bars: map<string, OptionBar>): (b': Book)
    requires cfg.Valid() && ValidBars(bars) && b.Sound()
    ensures b'.Sound()
  {
    if id !in b.positions || id !in bars then b
    else
      var p := b.positions[id];
      var reason := if p.exitReason.Some? then p.exitReason else ExitTrigger(p.signal, p.entryTime, bars[id]);
      if reason.None? then b else ApplyExit(b, id, ExecuteExit(cfg, p, bars[id], reason.value))
  }

  /** Existing positions, walked in key order. */
  function ExitPass(cfg: Config, b: Book, todo: set<string>, bars: map<string, OptionBar>): (b': Book)
    requires cfg.Valid() && ValidBars(bars) && b.Sound()
    ensures b'.Sound()
    decreases |todo|
  {
    if todo == {} then b
    else ExitPass(cfg, ExitOne(cfg, b, Least(todo), bars), todo - {Least(todo)}, bars)
  }

  function OpenAt(cfg: Config, signal: Signal, bar: OptionBar, timestamp: int, quantity: int): Position {
    var price := EntryPrice(cfg, bar);
    Position(signal, timestamp, price, bar.ask, quantity, quantity,
             OrderCosts(cfg, price, quantity, true), Amount(EntryAdverse(cfg, bar), quantity),
             0, 0.0, NO_COSTS, 0.0, None, None, None)
  }

  function Skip(b: Book, signal: Signal, timestamp: int): Book {
    b.(journal := b.journal + [SignalEntry(Skipped, timestamp, signal)])
  }

  /** One queued signal meets the frame; `b.pending` collects the signals that stay queued. */
  function EnterOne(cfg: Config, b: Book, signal: Signal, timestamp: int, bars: map<string, OptionBar>): (b': Book)
    requires cfg.Valid() && ValidBars(bars) && b.Sound() && signal.Valid()
    ensures b'.Sound()
  {
    if timestamp <= signal.generatedAt then b.(pending := b.pending + [signal])
    else if timestamp >= signal.contractExpiry then Skip(b, signal, timestamp)
    else if signal.validUntil.Some? && timestamp > signal.validUntil.value then Skip(b, signal, timestamp)
    else if signal.instrumentId !in bars then b.(pending := b.pending + [signal])
    else if signal.instrumentId in b.positions then Skip(b, signal, timestamp)
    else
      var bar := bars[signal.instrumentId];
      var quantity := Fillable(cfg, signal.RequestedQuantity(), bar.askQuantity, signal.lotSize);
      if quantity == 0 then
        b.(pending := b.pending + [signal], journal := b.journal + [SignalEntry(Unfilled, timestamp, signal)])
      else
        var price := EntryPrice(cfg, bar);
        if !(signal.stopPrice < price < signal.targetPrice) then Skip(b, signal, timestamp)
        else
          b.(positions := b.positions[signal.instrumentId := OpenAt(cfg, signal, bar, timestamp, quantity)],
             journal := b.journal + [JournalEntry(timestamp, Entry, signal.signalId, signal.instrumentId,
                                                  quantity, Some(price))])
  }

  ghost predicate ValidSignals(s: seq<Signal>) {
    forall i :: 0 <= i < |s| ==> s[i].Valid()
  }

  function EnterPass(cfg: Config, b: Book, queue: seq<Signal>, timestamp: int, bars: map<string, OptionBar>): (b': Book)
    requires cfg.Valid() && ValidBars(bars) && b.Sound() && ValidSignals(queue)
    ensures b'.Sound()
    decreases |queue|
  {
    if queue == [] then b
    else EnterPass(cfg, EnterOne(cfg, b, queue[0], timestamp, bars), queue[1..], timestamp, bars)
  }

  function QueueOne(b: Book, signal: Signal, timestamp: int): (b': Book)
    requires b.Sound() && signal.Valid()
    ensures b'.Sound()
  {
    b.(pending := b.pending + [signal], journal := b.journal + [SignalEntry(SignalQueued, timestamp, signal)])
  }

  function QueuePass(b: Book, signals: seq<Signal>, timestamp: int): (b': Book)
    requires b.Sound() && ValidSignals(signals)
    ensures b'.Sound()
    decreases |signals|
  {
    if signals == [] then b else QueuePass(QueueOne(b, signals[0], timestamp), signals[1..], timestamp)
  }

  /** A position still open when the data ends is offered its latest bar, once. */
  function EndOne(cfg: Config, b: Book, id: string, latest: map<string, OptionBar>): (b': Book)
    requires cfg.Valid() && ValidBars(latest) && b.Sound()
    ensures b'.Sound()
  {
    if id !in b.positions || id !in latest then b
    else
      var p := b.positions[id];
      var bar := latest[id];
      if bar.timestamp < p.entryTime || p.lastExitAttempt == Some(bar.timestamp) then b
      else
        var reason := if p.exitReason.Some? then p.exitReason.value else EndOfData;
        ApplyExit(b, id, ExecuteExit(cfg, p, bar, reason))
  }

  function EndPass(cfg: Config, b: Book, todo: set<string>, latest: map<string, OptionBar>): (b': Book)
    requires cfg.Valid() && ValidBars(latest) && b.Sound()
    ensures b'.Sound()
    decreases |todo|
  {
    if todo == {} then b
    else EndPass(cfg, EndOne(cfg, b, Least(todo), latest), todo - {Least(todo)}, latest)
  }

  function BarMap(bars: seq<OptionBar>): map<string, OptionBar> {
    if bars == [] then map[]
    else BarMap(bars[..|bars| - 1])[bars[|bars| - 1].instrumentId := bars[|bars| - 1]]
  }

  lemma {:induction false} BarMapMeaning(bars: seq<OptionBar>)
    ensures forall id :: id in BarMap(bars) ==> BarMap(bars)[id] in bars && BarMap(bars)[id].instrumentId == id
    ensures forall i :: 0 <= i < |bars| ==> bars[i].instrumentId in BarMap(bars)
  {
    if bars != [] {
      var n := |bars| - 1;
      BarMapMeaning(bars[..n]);
      assert forall i :: 0 <= i < n ==> bars[..n][i] == bars[i];
    }
  }

  ghost predicate ValidFrames(frames: seq<ReplayFrame>) {
    forall i :: 0 <= i < |frames| ==> frames[i].Valid()
  }

  function FrameBars(frame: ReplayFrame): (bars: map<string, OptionBar>)
    requires frame.Valid()
    ensures ValidBars(bars)
    ensures forall id :: id in bars ==> bars[id].instrumentId == id && bars[id].timestamp == frame.timestamp
  {
    BarMapMeaning(frame.bars);
    BarMap(frame.bars)
  }

  // ----- the whole replay -----

  const EMPTY_BOOK := Book([], map[], [], [])

  function FrameStep(cfg: Config, b: Book, frame: ReplayFrame): (b': Book)
    requires cfg.Valid() && frame.Valid() && b.Sound()
    ensures b'.Sound()
  {
    var bars := FrameBars(frame);
    var exited := ExitPass(cfg, b, b.positions.Keys, bars);
    var entered := EnterPass(cfg, exited.(pending := []), exited.pending, frame.timestamp, bars);
    QueuePass(entered, frame.signals, frame.timestamp)
  }

  function LatestBars(frames: seq<ReplayFrame>, k: nat): (bars: map<string, OptionBar>)
    requires k <= |frames| && ValidFrames(frames)
    ensures ValidBars(bars)
  {
    if k == 0 then map[] else LatestBars(frames, k - 1) + FrameBars(frames[k - 1])
  }

  function RunFrames(cfg: Config, frames: seq<ReplayFrame>, k: nat): (b: Book)
    requires cfg.Valid() && k <= |frames| && ValidFrames(frames)
    ensures b.Sound()
  {
    if k == 0 then EMPTY_BOOK else FrameStep(cfg, RunFrames(cfg, frames, k - 1), frames[k - 1])
  }

  function FinalBook(cfg: Config, frames: seq<ReplayFrame>): (b: Book)
    requires cfg.Valid() && ValidFrames(frames)
    ensures b.Sound()
  {
    var b := RunFrames(cfg, frames, |frames|);
    EndPass(cfg, b, b.positions.Keys, LatestBars(frames, |frames|))
  }

  function NetPnl(trades: seq<Trade>): real {
    if trades == [] then 0.0 else NetPnl(trades[..|trades| - 1]) + trades[|trades| - 1].netPnl
  }

  function Leftovers(pending: seq<Signal>, timestamp: int): seq<JournalEntry> {
    seq(|pending|, i requires 0 <= i < |pending| => SignalEntry(Unfilled, timestamp, pending[i]))
  }

  datatype Report = Report(
    startedAt: int, endedAt: int, initialCapital: real, endingCapital: real,
    trades: seq<Trade>, journal: seq<JournalEntry>, openPositions: map<string, Position>, pending: seq<Signal>)

  function ReportOf(cfg: Config, frames: seq<ReplayFrame>): Report
    requires cfg.Valid() && ValidFrames(frames) && frames != []
  {
    var b := FinalBook(cfg, frames);
    var ended := frames[|frames| - 1].timestamp;
    Report(frames[0].timestamp, ended, cfg.initialCapital, cfg.initialCapital + NetPnl(b.trades),
           b.trades, b.journal + Leftovers(b.pending, ended), b.positions, b.pending)
  }

  function AllSignals(frames: seq<ReplayFrame>): seq<Signal> {
    if frames == [] then [] else AllSignals(frames[..|frames| - 1]) + frames[|frames| - 1].signals
  }

  function Ids(s: seq<Signal>): set<string> {
    set k | 0 <= k < |s| :: s[k].signalId
  }

  ghost predicate DistinctIds(s: seq<Signal>) {
    forall i, j :: 0 <= i < j < |s| ==> s[i].signalId != s[j].signalId
  }

  ghost predicate Ordered(frames: seq<ReplayFrame>) {
    forall i :: 0 < i < |frames| ==> frames[i - 1].timestamp < frames[i].timestamp
  }

  ghost predicate ValidSequence(frames: seq<ReplayFrame>) {
    frames != [] && Ordered(frames) && DistinctIds(AllSignals(frames))
  }

  // ----- the operations, step by step -----

  /** Adds the ids of one frame to those already met, unless one repeats. */
  method AddIds(ghost before: seq<Signal>, signals: seq<Signal>, ids: set<string>) returns (ok: bool, ids': set<string>)
    requires DistinctIds(before) && ids == Ids(before)
    ensures ok <==> DistinctIds(before + signals)
    ensures ok ==> ids' == Ids(before + signals)
  {
    ids' := ids;
    assert before + signals[..0] == before;
    for j := 0 to |signals|
      invariant DistinctIds(before + signals[..j])
      invariant ids' == Ids(before + signals[..j])
    {
      ghost var so := before + signals[..j];
      assert before + signals[..j + 1] == so + [signals[j]];
      if signals[j].signalId in ids' {
        ghost var k :| 0 <= k < |so| && so[k].signalId == signals[j].signalId;
        assert (before + signals)[k] == so[k] && (before + signals)[|so|] == signals[j];
        return false, ids';
      }
      IdsAppend(so, signals[j]);
      ids' := ids' + {signals[j].signalId};
    }
    assert signals[..|signals|] == signals;
    ok := true;
  }

  lemma IdsAppend(so: seq<Signal>, s: Signal)
    ensures Ids(so + [s]) == Ids(so) + {s.signalId}
    ensures DistinctIds(so) && s.signalId !in Ids(so) ==> DistinctIds(so + [s])
  {
    var t := so + [s];
    assert forall k :: 0 <= k < |so| ==> t[k] == so[k];
    forall x ensures x in Ids(t) <==> x in Ids(so) || x == s.signalId {
      if x in Ids(so) {
        var k :| 0 <= k < |so| && so[k].signalId == x;
        assert t[k].signalId == x;
      }
      assert t[|so|].signalId == s.signalId;
    }
  }

  /** Rejects an empty replay, unsorted frames and repeated signal ids. */
  method ValidateSequence(frames: seq<ReplayFrame>) returns (ok: bool)
    requires ValidFrames(frames)
    ensures ok <==> ValidSequence(frames)
  {
    hide DistinctIds, Ids;
    if frames == [] { return false; }
    var ids: set<string> := {};
    NoIds();
    for i := 0 to |frames|
      invariant Ordered(frames[..i])
      invariant DistinctIds(AllSignals(frames[..i]))
      invariant ids == Ids(AllSignals(frames[..i]))
    {
      assert frames[..i + 1][..i] == frames[..i];
      if i > 0 && frames[i].timestamp <= frames[i - 1].timestamp {
        return false;
      }
      var distinct;
      distinct, ids := AddIds(AllSignals(frames[..i]), frames[i].signals, ids);
      if !distinct {
        RepeatedId(frames, i + 1);
        return false;
      }
    }
    assert frames[..|frames|] == frames;
    return true;
  }

  lemma NoIds()
    ensures Ids([]) == {} && DistinctIds([])
  {
  }

  lemma {:induction false} AllSignalsPrefix(frames: seq<ReplayFrame>, i: nat)
    requires i <= |frames|
    ensures AllSignals(frames[..i]) <= AllSignals(frames)
    decreases |frames| - i
  {
    if i < |frames| {
      AllSignalsPrefix(frames, i + 1);
      assert frames[..i + 1][..i] == frames[..i];
    } else {
      assert frames[..i] == frames;
    }
  }

  lemma RepeatedId(frames: seq<ReplayFrame>, i: nat)
    requires i <= |frames| && !DistinctIds(AllSignals(frames[..i]))
    ensures !DistinctIds(AllSignals(frames))
  {
    AllSignalsPrefix(frames, i);
    var some, all := AllSignals(frames[..i]), AllSignals(frames);
    var p, q :| 0 <= p < q < |some| && some[p].signalId == some[q].signalId;
    assert all[p] == some[p] && all[q] == some[q];
  }

  method TotalNetPnl(trades: seq<Trade>) returns (net: real)
    ensures net == NetPnl(trades)
  {
    net := 0.0;
    for i := 0 to |trades|
      invariant net == NetPnl(trades[..i])
    {
      assert trades[..i + 1][..i] == trades[..i];
      net := net + trades[i].netPnl;
    }
    assert trades[..|trades|] == trades;
  }
}
