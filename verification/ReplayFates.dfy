/** When and why a queued signal is decided: read from the journal and the input frames alone,
    each signal waits exactly while nothing can be done, and the frame that decides it enters
    or skips it for a reason. */
module ReplayFates {
  import opened Ordering
  import opened Outcomes
  import opened BacktestModels
  import opened ReplayEngine
  import opened ReplayHistory
  import opened ReplayInvariants

  /** The journal's last word on an instrument is an entry, not an exit. */
  predicate Held(j: seq<JournalEntry>, instrument: string) {
    if j == [] then false
    else
      var last := j[|j| - 1];
      if last.instrumentId == instrument && last.event == Entry then true
      else if last.instrumentId == instrument && last.event == Exit then false
      else Held(j[..|j| - 1], instrument)
  }

  lemma HeldStep(j: seq<JournalEntry>, e: JournalEntry, instrument: string)
    ensures Held(j + [e], instrument)
        <==> if e.instrumentId == instrument && e.event == Entry then true
             else if e.instrumentId == instrument && e.event == Exit then false
             else Held(j, instrument)
  {
    assert (j + [e])[..|j|] == j;
  }

  // ----- the reference -----

  predicate Live(s: Signal, ts: int) {
    ts < s.contractExpiry && (s.validUntil.Some? ==> ts <= s.validUntil.value)
  }

  /** What a bar's ask side offers a signal. */
  function Offer(cfg: Config, bar: OptionBar, s: Signal): int
    requires s.RequestedQuantity() >= 0 && s.lotSize > 0
  {
    Fillable(cfg, s.RequestedQuantity(), bar.askQuantity, s.lotSize)
  }

  predicate Inside(cfg: Config, bar: OptionBar, s: Signal) {
    s.stopPrice < EntryPrice(cfg, bar) < s.targetPrice
  }

  /** The journal notes at `ts` that nothing could be filled, and the instrument was not held then. */
  ghost predicate NotedFree(j: seq<JournalEntry>, s: Signal, ts: int) {
    exists i :: 0 <= i < |j| && j[i] == SignalEntry(Unfilled, ts, s) && !Held(j[..i], s.instrumentId)
  }

  lemma NotedStays(j: seq<JournalEntry>, j': seq<JournalEntry>, s: Signal, ts: int)
    requires NotedFree(j, s, ts) && j <= j'
    ensures NotedFree(j', s, ts)
  {
    var i :| 0 <= i < |j| && j[i] == SignalEntry(Unfilled, ts, s) && !Held(j[..i], s.instrumentId);
    assert j'[..i] == j[..i] && j'[i] == j[i];
  }

  /** Nothing can be done with a live signal: no quote, or an instrument not held with not one lot
      on offer, which the journal notes. */
  ghost predicate Waits(cfg: Config, frame: ReplayFrame, s: Signal, j: seq<JournalEntry>)
    requires frame.Valid()
  {
    && Live(s, frame.timestamp)
    && (s.instrumentId in FrameBars(frame) ==>
          && s.RequestedQuantity() >= 0 && s.lotSize > 0 && Offer(cfg, FrameBars(frame)[s.instrumentId], s) == 0
          && NotedFree(j, s, frame.timestamp))
  }

  lemma WaitsStays(cfg: Config, frame: ReplayFrame, s: Signal, j: seq<JournalEntry>, j': seq<JournalEntry>)
    requires frame.Valid() && Waits(cfg, frame, s, j) && j <= j'
    ensures Waits(cfg, frame, s, j')
  {
    hide NotedFree, Fillable;
    if s.instrumentId in FrameBars(frame) { NotedStays(j, j', s, frame.timestamp); }
  }

  /** Every frame after the signal and before `ts` left it waiting. */
  ghost predicate WaitsBefore(cfg: Config, frames: seq<ReplayFrame>, s: Signal, ts: int, j: seq<JournalEntry>)
    requires ValidFrames(frames)
  {
    forall k :: 0 <= k < |frames| && s.generatedAt < frames[k].timestamp < ts ==> Waits(cfg, frames[k], s, j)
  }

  ghost predicate EntryDue(cfg: Config, frames: seq<ReplayFrame>, held: bool, s: Signal, e: JournalEntry)
    requires ValidFrames(frames)
  {
    var bar := BarAt(frames, e.timestamp, s.instrumentId);
    && Live(s, e.timestamp) && bar.Some? && !held
    && s.RequestedQuantity() >= 0 && s.lotSize > 0
    && e.quantity == Offer(cfg, bar.value, s) && e.quantity > 0
    && Inside(cfg, bar.value, s) && e.price == Some(EntryPrice(cfg, bar.value)) && e.instrumentId == s.instrumentId
  }

  ghost predicate SkipDue(cfg: Config, frames: seq<ReplayFrame>, held: bool, s: Signal, ts: int)
    requires ValidFrames(frames)
  {
    var bar := BarAt(frames, ts, s.instrumentId);
    || !Live(s, ts)
    || (bar.Some? && (held || (s.RequestedQuantity() >= 0 && s.lotSize > 0 && Offer(cfg, bar.value, s) > 0 && !Inside(cfg, bar.value, s))))
  }

  /** A decision on one signal: later than it, after frames that all left it waiting, and for a
      reason that the journal so far and the frame's bar give. */
  ghost predicate DecidedFor(cfg: Config, frames: seq<ReplayFrame>, j: seq<JournalEntry>, s: Signal, e: JournalEntry)
    requires ValidFrames(frames)
  {
    && s in AllSignals(frames) && s.signalId == e.signalId && s.generatedAt < e.timestamp
    && WaitsBefore(cfg, frames, s, e.timestamp, j)
    && (e.event == Entry ==> EntryDue(cfg, frames, Held(j, s.instrumentId), s, e))
    && (e.event == Skipped ==> SkipDue(cfg, frames, Held(j, s.instrumentId), s, e.timestamp))
  }

  ghost predicate Justified(cfg: Config, frames: seq<ReplayFrame>, j: seq<JournalEntry>, e: JournalEntry)
    requires ValidFrames(frames)
  {
    e.event == Entry || e.event == Skipped ==> exists s :: DecidedFor(cfg, frames, j, s, e)
  }

  ghost predicate AllJustified(cfg: Config, frames: seq<ReplayFrame>, j: seq<JournalEntry>)
    requires ValidFrames(frames)
  {
    forall i :: 0 <= i < |j| ==> Justified(cfg, frames, j[..i], j[i])
  }

  lemma JustifiedStep(cfg: Config, frames: seq<ReplayFrame>, j: seq<JournalEntry>, e: JournalEntry)
    requires ValidFrames(frames) && AllJustified(cfg, frames, j) && Justified(cfg, frames, j, e)
    ensures AllJustified(cfg, frames, j + [e])
  {
    hide Justified;
    forall i | 0 <= i < |j + [e]| ensures Justified(cfg, frames, (j + [e])[..i], (j + [e])[i]) {
      if i < |j| { assert (j + [e])[..i] == j[..i]; } else { assert (j + [e])[..i] == j; }
    }
  }

  // ----- the invariant -----

  /** The signals have waited through every one of the first `n` frames that follows them. */
  ghost predicate Waited(cfg: Config, frames: seq<ReplayFrame>, n: nat, queue: seq<Signal>, j: seq<JournalEntry>)
    requires ValidFrames(frames)
  {
    forall i :: 0 <= i < |queue| ==> WaitedOne(cfg, frames, n, queue[i], j)
  }

  ghost predicate WaitedOne(cfg: Config, frames: seq<ReplayFrame>, n: nat, s: Signal, j: seq<JournalEntry>)
    requires ValidFrames(frames)
  {
    && s in AllSignals(frames) && s.Valid()
    && forall k :: 0 <= k < n && k < |frames| && s.generatedAt < frames[k].timestamp ==> Waits(cfg, frames[k], s, j)
  }

  lemma WaitedOneStays(cfg: Config, frames: seq<ReplayFrame>, n: nat, s: Signal, j: seq<JournalEntry>, j': seq<JournalEntry>)
    requires ValidFrames(frames) && WaitedOne(cfg, frames, n, s, j) && j <= j'
    ensures WaitedOne(cfg, frames, n, s, j')
  {
    hide Waits, AllSignals;
    forall k | 0 <= k < n && k < |frames| && s.generatedAt < frames[k].timestamp ensures Waits(cfg, frames[k], s, j') {
      WaitsStays(cfg, frames[k], s, j, j');
    }
  }

  lemma WaitedStays(cfg: Config, frames: seq<ReplayFrame>, n: nat, queue: seq<Signal>, j: seq<JournalEntry>, j': seq<JournalEntry>)
    requires ValidFrames(frames) && Waited(cfg, frames, n, queue, j) && j <= j'
    ensures Waited(cfg, frames, n, queue, j')
  {
    hide WaitedOne;
    forall i | 0 <= i < |queue| ensures WaitedOne(cfg, frames, n, queue[i], j') { WaitedOneStays(cfg, frames, n, queue[i], j, j'); }
  }

  ghost predicate HeldInv(b: Book) {
    && (forall id :: id in b.positions ==> b.positions[id].signal.instrumentId == id)
    && (forall id :: id in b.positions <==> Held(b.journal, id))
  }

  ghost predicate FateInv(cfg: Config, frames: seq<ReplayFrame>, n: nat, b: Book)
    requires ValidFrames(frames)
  {
    b.Sound() && HeldInv(b) && AllJustified(cfg, frames, b.journal) && Waited(cfg, frames, n, b.pending, b.journal)
  }

  /** A note, fill or queue entry decides nothing and changes no holding. */
  lemma PlainEntry(cfg: Config, frames: seq<ReplayFrame>, b: Book, e: JournalEntry)
    requires ValidFrames(frames) && HeldInv(b) && AllJustified(cfg, frames, b.journal)
    requires e.event != Entry && e.event != Skipped && e.event != Exit
    ensures var b' := b.(journal := b.journal + [e]); HeldInv(b') && AllJustified(cfg, frames, b'.journal)
  {
    hide Held, AllJustified;
    JustifiedStep(cfg, frames, b.journal, e);
    forall id ensures Held(b.journal + [e], id) == Held(b.journal, id) { HeldStep(b.journal, e, id); }
  }

  // ----- exits -----

  lemma ExitFates(cfg: Config, frames: seq<ReplayFrame>, n: nat, b: Book, id: string, bar: OptionBar, reason: ExitReason)
    requires cfg.Valid() && ValidFrames(frames) && bar.Valid() && FateInv(cfg, frames, n, b) && id in b.positions
    ensures FateInv(cfg, frames, n, ApplyExit(b, id, ExecuteExit(cfg, b.positions[id], bar, reason)))
  {
    hide Held, AllJustified, Waited, Fillable, ExitPrice, CloseTrade, OrderCosts, Amount;
    var r := ExecuteExit(cfg, b.positions[id], bar, reason);
    WaitedStays(cfg, frames, n, b.pending, b.journal, b.journal + r.entries);
    PlainEntry(cfg, frames, b, r.entries[0]);
    var b1 := b.(journal := b.journal + [r.entries[0]]);
    if r.trade.Some? {
      var e := r.entries[1];
      assert b.journal + r.entries == b1.journal + [e];
      JustifiedStep(cfg, frames, b1.journal, e);
      forall x ensures Held(b1.journal + [e], x) <==> x != id && Held(b1.journal, x) { HeldStep(b1.journal, e, x); }
    } else {
      assert r.entries == [r.entries[0]];
    }
  }

  lemma {:induction false} ExitPassFates(cfg: Config, frames: seq<ReplayFrame>, n: nat, b: Book, todo: set<string>, bars: map<string, OptionBar>)
    requires cfg.Valid() && ValidFrames(frames) && ValidBars(bars) && FateInv(cfg, frames, n, b)
    ensures FateInv(cfg, frames, n, ExitPass(cfg, b, todo, bars))
    decreases |todo|
  {
    hide HeldInv, AllJustified, Waited, ExecuteExit, ExitTrigger, ApplyExit;
    if todo != {} {
      var id := Least(todo);
      if id in b.positions && id in bars {
        var p := b.positions[id];
        var reason := if p.exitReason.Some? then p.exitReason else ExitTrigger(p.signal, p.entryTime, bars[id]);
        if reason.Some? { ExitFates(cfg, frames, n, b, id, bars[id], reason.value); }
      }
      ExitPassFates(cfg, frames, n, ExitOne(cfg, b, id, bars), todo - {id}, bars);
    }
  }

  lemma {:induction false} EndPassFates(cfg: Config, frames: seq<ReplayFrame>, n: nat, b: Book, todo: set<string>, bars: map<string, OptionBar>)
    requires cfg.Valid() && ValidFrames(frames) && ValidBars(bars) && FateInv(cfg, frames, n, b)
    ensures FateInv(cfg, frames, n, EndPass(cfg, b, todo, bars))
    decreases |todo|
  {
    hide HeldInv, AllJustified, Waited, ExecuteExit, ApplyExit;
    if todo != {} {
      var id := Least(todo);
      if id in b.positions && id in bars {
        var p := b.positions[id];
        ExitFates(cfg, frames, n, b, id, bars[id], if p.exitReason.Some? then p.exitReason.value else EndOfData);
      }
      EndPassFates(cfg, frames, n, EndOne(cfg, b, id, bars), todo - {id}, bars);
    }
  }

  // ----- entries -----

  lemma WaitsUntil(cfg: Config, frames: seq<ReplayFrame>, n: nat, s: Signal, j: seq<JournalEntry>)
    requires ValidFrames(frames) && Ordered(frames) && n < |frames| && WaitedOne(cfg, frames, n, s, j)
    ensures WaitsBefore(cfg, frames, s, frames[n].timestamp, j)
  {
    hide Waits;
    forall k | 0 <= k < |frames| && s.generatedAt < frames[k].timestamp < frames[n].timestamp ensures Waits(cfg, frames[k], s, j) {
      if n < k { FramesOrdered(frames, n, k); }
    }
  }

  lemma KeepWaiting(cfg: Config, frames: seq<ReplayFrame>, n: nat, pending: seq<Signal>, s: Signal, j: seq<JournalEntry>)
    requires ValidFrames(frames) && n < |frames| && Waited(cfg, frames, n + 1, pending, j) && WaitedOne(cfg, frames, n, s, j)
    requires s.generatedAt < frames[n].timestamp ==> Waits(cfg, frames[n], s, j)
    ensures Waited(cfg, frames, n + 1, pending + [s], j)
  {
    hide Waits;
    assert WaitedOne(cfg, frames, n + 1, s, j);
  }

  lemma SkipFates(cfg: Config, frames: seq<ReplayFrame>, n: nat, b: Book, s: Signal)
    requires cfg.Valid() && ValidFrames(frames) && Ordered(frames) && n < |frames|
    requires FateInv(cfg, frames, n + 1, b) && WaitedOne(cfg, frames, n, s, b.journal) && s.generatedAt < frames[n].timestamp
    requires SkipDue(cfg, frames, s.instrumentId in b.positions, s, frames[n].timestamp)
    ensures FateInv(cfg, frames, n + 1, Skip(b, s, frames[n].timestamp))
  {
    hide Held, AllJustified, Waited, SkipDue, Waits;
    var e := SignalEntry(Skipped, frames[n].timestamp, s);
    WaitsUntil(cfg, frames, n, s, b.journal);
    assert DecidedFor(cfg, frames, b.journal, s, e);
    JustifiedStep(cfg, frames, b.journal, e);
    WaitedStays(cfg, frames, n + 1, b.pending, b.journal, b.journal + [e]);
    forall id ensures Held(b.journal + [e], id) == Held(b.journal, id) { HeldStep(b.journal, e, id); }
  }

  lemma OpenFates(cfg: Config, frames: seq<ReplayFrame>, n: nat, b: Book, s: Signal, p: Position, e: JournalEntry)
    requires cfg.Valid() && ValidFrames(frames) && Ordered(frames) && n < |frames|
    requires FateInv(cfg, frames, n + 1, b) && WaitedOne(cfg, frames, n, s, b.journal) && s.generatedAt < frames[n].timestamp
    requires p.Sound() && p.signal == s && e.event == Entry && e.timestamp == frames[n].timestamp && e.signalId == s.signalId
    requires EntryDue(cfg, frames, s.instrumentId in b.positions, s, e)
    ensures FateInv(cfg, frames, n + 1, b.(positions := b.positions[s.instrumentId := p], journal := b.journal + [e]))
  {
    hide Held, AllJustified, Waited, Waits, Fillable, EntryPrice, BarAt;
    WaitsUntil(cfg, frames, n, s, b.journal);
    assert DecidedFor(cfg, frames, b.journal, s, e);
    JustifiedStep(cfg, frames, b.journal, e);
    WaitedStays(cfg, frames, n + 1, b.pending, b.journal, b.journal + [e]);
    forall id ensures Held(b.journal + [e], id) <==> id == s.instrumentId || Held(b.journal, id) { HeldStep(b.journal, e, id); }
  }

  lemma EnterOneFates(cfg: Config, frames: seq<ReplayFrame>, n: nat, b: Book, s: Signal)
    requires cfg.Valid() && ValidFrames(frames) && Ordered(frames) && n < |frames|
    requires FateInv(cfg, frames, n + 1, b) && WaitedOne(cfg, frames, n, s, b.journal)
    ensures FateInv(cfg, frames, n + 1, EnterOne(cfg, b, s, frames[n].timestamp, FrameBars(frames[n])))
  {
    hide HeldInv, AllJustified, Waited, WaitedOne, Fillable, EntryPrice, BarAt, FateInv, OpenAt, Signal.RequestedQuantity;
    Signed(cfg, frames, n, b, s);
    BarAtFrame(frames, n, s.instrumentId);
    var ts, bars := frames[n].timestamp, FrameBars(frames[n]);
    var b' := EnterOne(cfg, b, s, ts, bars);
    if ts <= s.generatedAt {
      StayFates(cfg, frames, n, b, s);
    } else if !Live(s, ts) {
      SkipFates(cfg, frames, n, b, s);
    } else if s.instrumentId !in bars {
      StayFates(cfg, frames, n, b, s);
    } else if s.instrumentId in b.positions {
      SkipFates(cfg, frames, n, b, s);
    } else {
      var bar := bars[s.instrumentId];
      var quantity := Offer(cfg, bar, s);
      if quantity == 0 {
        NoteFates(cfg, frames, n, b, s);
      } else if !Inside(cfg, bar, s) {
        SkipFates(cfg, frames, n, b, s);
      } else {
        OpenSound(cfg, s, bar, ts, quantity);
        OpenFates(cfg, frames, n, b, s, OpenAt(cfg, s, bar, ts, quantity),
                  EntryRecord(s, ts, EntryPrice(cfg, bar), quantity));
      }
    }
  }

  lemma Signed(cfg: Config, frames: seq<ReplayFrame>, n: nat, b: Book, s: Signal)
    requires ValidFrames(frames) && FateInv(cfg, frames, n + 1, b) && WaitedOne(cfg, frames, n, s, b.journal)
    ensures b.Sound() && s.Valid() && s.RequestedQuantity() > 0
  {
    assert s.lots * s.lotSize > 0;
  }

  lemma StayFates(cfg: Config, frames: seq<ReplayFrame>, n: nat, b: Book, s: Signal)
    requires ValidFrames(frames) && n < |frames| && FateInv(cfg, frames, n + 1, b) && WaitedOne(cfg, frames, n, s, b.journal)
    requires s.generatedAt < frames[n].timestamp ==> Waits(cfg, frames[n], s, b.journal)
    ensures FateInv(cfg, frames, n + 1, b.(pending := b.pending + [s]))
  {
    hide Held, AllJustified, Waited, Waits;
    KeepWaiting(cfg, frames, n, b.pending, s, b.journal);
  }

  lemma NoteFates(cfg: Config, frames: seq<ReplayFrame>, n: nat, b: Book, s: Signal)
    requires ValidFrames(frames) && n < |frames| && FateInv(cfg, frames, n + 1, b) && WaitedOne(cfg, frames, n, s, b.journal)
    requires Live(s, frames[n].timestamp) && s.instrumentId in FrameBars(frames[n]) && s.instrumentId !in b.positions
    requires s.RequestedQuantity() >= 0 && Offer(cfg, FrameBars(frames[n])[s.instrumentId], s) == 0
    ensures FateInv(cfg, frames, n + 1,
                    b.(pending := b.pending + [s], journal := b.journal + [SignalEntry(Unfilled, frames[n].timestamp, s)]))
  {
    hide AllJustified, Waited, Held, Fillable;
    var e := SignalEntry(Unfilled, frames[n].timestamp, s);
    var j := b.journal + [e];
    assert j[|b.journal|] == e && j[..|b.journal|] == b.journal;
    assert NotedFree(j, s, frames[n].timestamp);
    WaitedStays(cfg, frames, n + 1, b.pending, b.journal, j);
    WaitedOneStays(cfg, frames, n, s, b.journal, j);
    KeepWaiting(cfg, frames, n, b.pending, s, j);
    PlainEntry(cfg, frames, b, e);
  }

  lemma OpenSound(cfg: Config, s: Signal, bar: OptionBar, ts: int, quantity: int)
    requires s.Valid() && Inside(cfg, bar, s) && quantity > 0
    ensures var p := OpenAt(cfg, s, bar, ts, quantity); p.Sound() && p.signal == s
  {
    hide EntryPrice, OrderCosts, Amount, EntryAdverse;
  }

  lemma EnterOneGrows(cfg: Config, b: Book, s: Signal, timestamp: int, bars: map<string, OptionBar>)
    requires cfg.Valid() && ValidBars(bars) && b.Sound() && s.Valid()
    ensures b.journal <= EnterOne(cfg, b, s, timestamp, bars).journal
  {
    hide Fillable, EntryPrice, OpenAt;
  }

  lemma {:induction false} EnterPassFates(cfg: Config, frames: seq<ReplayFrame>, n: nat, b: Book, queue: seq<Signal>)
    requires cfg.Valid() && ValidFrames(frames) && Ordered(frames) && n < |frames| && ValidSignals(queue)
    requires FateInv(cfg, frames, n + 1, b) && Waited(cfg, frames, n, queue, b.journal)
    ensures FateInv(cfg, frames, n + 1, EnterPass(cfg, b, queue, frames[n].timestamp, FrameBars(frames[n])))
    decreases |queue|
  {
    hide HeldInv, AllJustified, WaitedOne, EnterOne;
    if queue != [] {
      EnterOneFates(cfg, frames, n, b, queue[0]);
      EnterOneGrows(cfg, b, queue[0], frames[n].timestamp, FrameBars(frames[n]));
      WaitedStays(cfg, frames, n, queue, b.journal, EnterOne(cfg, b, queue[0], frames[n].timestamp, FrameBars(frames[n])).journal);
      EnterPassFates(cfg, frames, n, EnterOne(cfg, b, queue[0], frames[n].timestamp, FrameBars(frames[n])), queue[1..]);
    }
  }

  // ----- queueing -----

  lemma {:induction false} SignalsListed(frames: seq<ReplayFrame>, n: nat)
    requires n < |frames|
    ensures forall i :: 0 <= i < |frames[n].signals| ==> frames[n].signals[i] in AllSignals(frames)
    decreases |frames|
  {
    var m := |frames| - 1;
    if n < m {
      SignalsListed(frames[..m], n);
      assert forall s :: s in AllSignals(frames[..m]) ==> s in AllSignals(frames);
    } else {
      assert forall i :: 0 <= i < |frames[n].signals| ==> AllSignals(frames)[|AllSignals(frames[..m])| + i] == frames[n].signals[i];
    }
  }

  lemma {:induction false} QueuePassFates(cfg: Config, frames: seq<ReplayFrame>, n: nat, b: Book, signals: seq<Signal>)
    requires ValidFrames(frames) && Ordered(frames) && n < |frames| && ValidSignals(signals)
    requires FateInv(cfg, frames, n + 1, b)
    requires forall i :: 0 <= i < |signals| ==> signals[i] in AllSignals(frames) && signals[i].generatedAt == frames[n].timestamp
    ensures FateInv(cfg, frames, n + 1, QueuePass(b, signals, frames[n].timestamp))
    decreases |signals|
  {
    hide Held, AllJustified, Waits, AllSignals;
    if signals != [] {
      var s := signals[0];
      PlainEntry(cfg, frames, b, SignalEntry(SignalQueued, frames[n].timestamp, s));
      forall k | 0 <= k < n + 1 ensures frames[k].timestamp <= s.generatedAt {
        if k < n { FramesOrdered(frames, k, n); }
      }
      var j := b.journal + [SignalEntry(SignalQueued, frames[n].timestamp, s)];
      assert WaitedOne(cfg, frames, n + 1, s, j);
      WaitedStays(cfg, frames, n + 1, b.pending, b.journal, j);
      QueuePassFates(cfg, frames, n, QueueOne(b, s, frames[n].timestamp), signals[1..]);
    }
  }

  // ----- every run -----

  lemma FrameFates(cfg: Config, frames: seq<ReplayFrame>, n: nat, b: Book)
    requires cfg.Valid() && ValidFrames(frames) && Ordered(frames) && n < |frames| && FateInv(cfg, frames, n, b)
    ensures FateInv(cfg, frames, n + 1, FrameStep(cfg, b, frames[n]))
  {
    hide HeldInv, AllJustified, WaitedOne, ExitPass, EnterPass, QueuePass, AllSignals;
    var frame := frames[n];
    var bars := FrameBars(frame);
    ExitPassFates(cfg, frames, n, b, b.positions.Keys, bars);
    var exited := ExitPass(cfg, b, b.positions.Keys, bars);
    var drained := exited.(pending := []);
    Drained(cfg, frames, n, exited);
    EnterPassFates(cfg, frames, n, drained, exited.pending);
    SignalsListed(frames, n);
    QueuePassFates(cfg, frames, n, EnterPass(cfg, drained, exited.pending, frame.timestamp, bars), frame.signals);
  }

  lemma Drained(cfg: Config, frames: seq<ReplayFrame>, n: nat, b: Book)
    requires ValidFrames(frames) && FateInv(cfg, frames, n, b)
    ensures FateInv(cfg, frames, n + 1, b.(pending := []))
  {
    hide Held, AllJustified;
  }

  lemma {:induction false} RunFates(cfg: Config, frames: seq<ReplayFrame>, n: nat)
    requires cfg.Valid() && ValidFrames(frames) && Ordered(frames) && n <= |frames|
    ensures FateInv(cfg, frames, n, RunFrames(cfg, frames, n))
  {
    hide FateInv, FrameStep;
    if n == 0 {
      NoFatesYet(cfg, frames);
    } else {
      RunFates(cfg, frames, n - 1);
      FrameFates(cfg, frames, n - 1, RunFrames(cfg, frames, n - 1));
    }
  }

  lemma NoFatesYet(cfg: Config, frames: seq<ReplayFrame>)
    requires ValidFrames(frames)
    ensures FateInv(cfg, frames, 0, EMPTY_BOOK)
  {
  }

  lemma {:induction false} NotesJustified(cfg: Config, frames: seq<ReplayFrame>, j: seq<JournalEntry>, notes: seq<JournalEntry>)
    requires ValidFrames(frames) && AllJustified(cfg, frames, j)
    requires forall i :: 0 <= i < |notes| ==> notes[i].event == Unfilled
    ensures AllJustified(cfg, frames, j + notes)
    decreases |notes|
  {
    hide AllJustified;
    if notes == [] {
      assert j + notes == j;
    } else {
      JustifiedStep(cfg, frames, j, notes[0]);
      assert j + notes == (j + [notes[0]]) + notes[1..];
      NotesJustified(cfg, frames, j + [notes[0]], notes[1..]);
    }
  }

  /** In every replay, each entry and each skip in the journal is the prompt and justified
      decision of its signal, and what is still pending at the end has waited ever since. */
  lemma SignalFates(cfg: Config, frames: seq<ReplayFrame>)
    requires Input(cfg, frames)
    ensures var r := ReportOf(cfg, frames);
      && AllJustified(cfg, frames, r.journal)
      && (forall i, k :: 0 <= i < |r.pending| && 0 <= k < |frames| && r.pending[i].generatedAt < frames[k].timestamp
            ==> Waits(cfg, frames[k], r.pending[i], r.journal))
  {
    hide AllJustified, RunFrames, EndPass, NetPnl, Waits, LatestBars, HeldInv, AllSignals;
    RunFates(cfg, frames, |frames|);
    var b := RunFrames(cfg, frames, |frames|);
    EndPassFates(cfg, frames, |frames|, b, b.positions.Keys, LatestBars(frames, |frames|));
    var f := FinalBook(cfg, frames);
    NotesJustified(cfg, frames, f.journal, Leftovers(f.pending, frames[|frames| - 1].timestamp));
    forall i, k | 0 <= i < |f.pending| && 0 <= k < |frames| && f.pending[i].generatedAt < frames[k].timestamp
      ensures Waits(cfg, frames[k], f.pending[i], ReportOf(cfg, frames).journal)
    {
      assert WaitedOne(cfg, frames, |frames|, f.pending[i], f.journal);
      WaitsStays(cfg, frames[k], f.pending[i], f.journal, ReportOf(cfg, frames).journal);
    }
  }
}
