/** Every frame keeps the book invariant, so every finished replay satisfies it; the promises
    of the engine follow. */
module ReplayTheorems {
  import opened Ordering
  import opened Outcomes
  import opened BacktestModels
  import opened ReplayEngine
  import opened ReplayHistory
  import opened ReplayInvariants

  // ----- the passes of one frame -----

  lemma ExitOneInv(cfg: Config, frames: seq<ReplayFrame>, k: nat, todo: set<string>, queued: nat, b: Book, id: string)
    requires Input(cfg, frames) && 0 < k <= |frames| && id in todo
    requires BookInv(cfg, frames, k, todo, queued, b)
    ensures BookInv(cfg, frames, k, todo - {id}, queued, ExitOne(cfg, b, id, FrameBars(frames[k - 1])))
  {
    hide PositionInv, TradeInv, ExecuteExit, Exited, ExitTrigger, Story, Skips, PendingInv, TradesInv, SignalsInv,
      Disjoint, AllSignals, ApplyExit;
    var bars := FrameBars(frames[k - 1]);
    if id in b.positions {
      var p := b.positions[id];
      assert PositionInv(cfg, frames, k - 1, p, Story(b.journal, p.signal.signalId));
      var reason := if id in bars
        then (if p.exitReason.Some? then p.exitReason else ExitTrigger(p.signal, p.entryTime, bars[id])) else None;
      if id in bars && reason.Some? {
        var r := ExecuteExit(cfg, p, bars[id], reason.value);
        LoopExit(cfg, frames, k - 1, p, bars[id], reason.value, b.journal);
        ExitStory(cfg, b.journal, p, bars[id], reason.value);
        ExitNoSkip(cfg, p, bars[id], reason.value);
        assert ExitStep(cfg, frames, k, b, id, r);
        ExitKeepsInv(cfg, frames, k, todo, queued, b, id, r);
      } else {
        QuietFrame(cfg, frames, k - 1, p, Story(b.journal, p.signal.signalId));
        assert PositionsInv(cfg, frames, k, todo - {id}, b);
      }
    } else {
      assert PositionsInv(cfg, frames, k, todo - {id}, b);
    }
  }

  lemma ExitNoSkip(cfg: Config, p: Position, bar: OptionBar, reason: ExitReason)
    requires cfg.Valid() && bar.Valid() && p.Sound()
    ensures Skips(ExecuteExit(cfg, p, bar, reason).entries) == 0
  {
    hide Fillable, OrderCosts, ExitPrice, Amount, CloseTrade, Skips;
    var es := ExecuteExit(cfg, p, bar, reason).entries;
    NoSkips(es);
  }

  lemma {:induction false} NoSkips(es: seq<JournalEntry>)
    requires forall i :: 0 <= i < |es| ==> es[i].event != Skipped
    ensures Skips(es) == 0
  {
    if es != [] { NoSkips(es[..|es| - 1]); }
  }

  lemma {:induction false} ExitPassInv(cfg: Config, frames: seq<ReplayFrame>, k: nat, todo: set<string>, queued: nat, b: Book)
    requires Input(cfg, frames) && 0 < k <= |frames|
    requires BookInv(cfg, frames, k, todo, queued, b)
    ensures BookInv(cfg, frames, k, {}, queued, ExitPass(cfg, b, todo, FrameBars(frames[k - 1])))
    decreases |todo|
  {
    hide BookInv, ExitOne, Input;
    if todo != {} {
      var id := Least(todo);
      assert cfg.Valid() && ValidFrames(frames) && b.Sound() by { Unpack(cfg, frames, k, todo, queued, b); }
      ExitOneInv(cfg, frames, k, todo, queued, b, id);
      ExitPassInv(cfg, frames, k, todo - {id}, queued, ExitOne(cfg, b, id, FrameBars(frames[k - 1])));
    }
  }

  lemma Unpack(cfg: Config, frames: seq<ReplayFrame>, k: nat, todo: set<string>, queued: nat, b: Book)
    requires Input(cfg, frames) && BookInv(cfg, frames, k, todo, queued, b)
    ensures cfg.Valid() && ValidFrames(frames) && b.Sound()
  {
  }

  /** The book with the part of the queue that has not been looked at yet. */
  function WithRest(b: Book, rest: seq<Signal>): Book {
    b.(pending := b.pending + rest)
  }

  lemma EnterOneInv(cfg: Config, frames: seq<ReplayFrame>, k: nat, queued: nat, b: Book, s: Signal, rest: seq<Signal>)
    requires Input(cfg, frames) && 0 < k <= |frames| && b.Sound() && s.Valid()
    requires BookInv(cfg, frames, k, {}, queued, WithRest(b, [s] + rest))
    ensures BookInv(cfg, frames, k, {}, queued,
                    WithRest(EnterOne(cfg, b, s, frames[k - 1].timestamp, FrameBars(frames[k - 1])), rest))
  {
    hide PositionInv, TradeInv, Fillable, EntryPrice, OpenAt, BookInv, QueueOwner, Book.Sound, Signal.RequestedQuantity;
    var ts, bars := frames[k - 1].timestamp, FrameBars(frames[k - 1]);
    var whole := WithRest(b, [s] + rest);
    var i := |b.pending|;
    var b' := EnterOne(cfg, b, s, ts, bars);
    var kept := b.(pending := b.pending + [s]);
    assert whole.pending[i] == s && whole.pending[..i] == b.pending && whole.pending[i + 1..] == rest;
    assert WithRest(kept, rest) == whole by { assert b.pending + [s] + rest == b.pending + ([s] + rest); }
    PendingOwns(cfg, frames, k, {}, queued, whole, i);
    if b' == Skip(b, s, ts) {
      var e := SignalEntry(Skipped, ts, s);
      LeaveKeepsInv(cfg, frames, k, queued, whole, i, e, None);
      assert WithRest(b', rest) == Leave(whole, i, e, None);
    } else if b' == kept {
    } else {
      var bar := bars[s.instrumentId];
      var quantity := Fillable(cfg, s.RequestedQuantity(), bar.askQuantity, s.lotSize);
      if quantity == 0 {
        NoteKeepsInv(cfg, frames, k, {}, queued, whole, SignalEntry(Unfilled, ts, s));
        assert WithRest(b', rest) == whole.(journal := whole.journal + [SignalEntry(Unfilled, ts, s)]);
      } else {
        var e := EntryRecord(s, ts, EntryPrice(cfg, bar), quantity);
        var p := OpenAt(cfg, s, bar, ts, quantity);
        OpensAt(cfg, s, bar, ts, quantity);
        EnterPosition(cfg, frames, k - 1, s, bar, quantity, [SignalEntry(SignalQueued, s.generatedAt, s)]);
        assert [SignalEntry(SignalQueued, s.generatedAt, s)] + [e] == [SignalEntry(SignalQueued, s.generatedAt, s), e];
        LeaveKeepsInv(cfg, frames, k, queued, whole, i, e, Some(p));
        assert WithRest(b', rest) == Leave(whole, i, e, Some(p));
      }
    }
  }

  lemma OpensAt(cfg: Config, s: Signal, bar: OptionBar, ts: int, quantity: int)
    ensures var p := OpenAt(cfg, s, bar, ts, quantity); p.signal == s && p.entryTime == ts
  {
  }

  lemma {:induction false} EnterPassInv(cfg: Config, frames: seq<ReplayFrame>, k: nat, queued: nat, b: Book, queue: seq<Signal>)
    requires Input(cfg, frames) && 0 < k <= |frames| && b.Sound() && ValidSignals(queue)
    requires BookInv(cfg, frames, k, {}, queued, WithRest(b, queue))
    ensures BookInv(cfg, frames, k, {}, queued,
                    EnterPass(cfg, b, queue, frames[k - 1].timestamp, FrameBars(frames[k - 1])))
    decreases |queue|
  {
    hide BookInv, EnterOne;
    var ts, bars := frames[k - 1].timestamp, FrameBars(frames[k - 1]);
    if queue == [] {
      assert WithRest(b, queue) == b;
    } else {
      assert queue == [queue[0]] + queue[1..];
      EnterOneInv(cfg, frames, k, queued, b, queue[0], queue[1..]);
      EnterPassInv(cfg, frames, k, queued, EnterOne(cfg, b, queue[0], ts, bars), queue[1..]);
    }
  }

  /** Queueing appends exactly one entry to exactly one story. */
  lemma QueueStories(j: seq<JournalEntry>, s: Signal, ts: int)
    ensures var e := SignalEntry(SignalQueued, ts, s);
      forall id :: Story(j + [e], id) == if id == s.signalId then Story(j, id) + [e] else Story(j, id)
  {
    var e := SignalEntry(SignalQueued, ts, s);
    forall id ensures Story(j + [e], id) == if id == s.signalId then Story(j, id) + [e] else Story(j, id) {
      StoryOne(j, e, id);
    }
  }

  ghost predicate NextUp(cfg: Config, frames: seq<ReplayFrame>, k: nat, queued: nat, b: Book) {
    && Input(cfg, frames) && 0 < k <= |frames|
    && BookInv(cfg, frames, k, {}, queued, b) && queued < |AllSignals(frames)|
    && AllSignals(frames)[queued].Valid() && AllSignals(frames)[queued].generatedAt == frames[k - 1].timestamp
  }

  lemma QueueKeepsHolders(cfg: Config, frames: seq<ReplayFrame>, k: nat, queued: nat, b: Book)
    requires NextUp(cfg, frames, k, queued, b)
    ensures var b' := QueueOne(b, AllSignals(frames)[queued], frames[k - 1].timestamp);
      && PendingInv(frames, k, b') && PositionsInv(cfg, frames, k, {}, b')
  {
    hide PositionInv, TradeInv, Story, Skips;
    QueueStories(b.journal, AllSignals(frames)[queued], frames[k - 1].timestamp);
    NewcomerAlone(cfg, frames, k, queued, b);
  }

  lemma QueueKeepsTrades(cfg: Config, frames: seq<ReplayFrame>, k: nat, queued: nat, b: Book)
    requires NextUp(cfg, frames, k, queued, b)
    ensures var b' := QueueOne(b, AllSignals(frames)[queued], frames[k - 1].timestamp);
      && TradesInv(cfg, frames, k, b') && Disjoint(b')
  {
    hide PositionInv, TradeInv, Story, Skips, Accounted;
    QueueStories(b.journal, AllSignals(frames)[queued], frames[k - 1].timestamp);
    NewcomerAlone(cfg, frames, k, queued, b);
  }

  lemma QueueAccounts(b: Book, s: Signal, ts: int, x: Signal)
    requires b.Sound() && s.Valid() && Accounted(b, x) && x.signalId != s.signalId
    ensures Accounted(QueueOne(b, s, ts), x)
  {
    QueueStories(b.journal, s, ts);
    hide Story;
    if IsClosed(b, x) {
      var l :| 0 <= l < |b.trades| && b.trades[l].signal == x;
      assert QueueOne(b, s, ts).trades[l].signal == x;
    }
  }

  lemma QueueKeepsSignals(cfg: Config, frames: seq<ReplayFrame>, k: nat, queued: nat, b: Book)
    requires NextUp(cfg, frames, k, queued, b)
    ensures SignalsInv(AllSignals(frames), queued + 1, QueueOne(b, AllSignals(frames)[queued], frames[k - 1].timestamp))
  {
    hide PositionInv, TradeInv, Story, Skips, AllSignals, PositionsInv, TradesInv, PendingInv;
    var all, ts := AllSignals(frames), frames[k - 1].timestamp;
    var s := all[queued];
    var b' := QueueOne(b, s, ts);
    QueueStories(b.journal, s, ts);
    SkipsOne(b.journal, SignalEntry(SignalQueued, ts, s));
    assert all[..queued + 1] == all[..queued] + [s];
    IdsAppend(all[..queued], s);
    forall i | 0 <= i < queued + 1 ensures Accounted(b', all[i]) {
      if i < queued { QueueAccounts(b, s, ts, all[i]); } else { assert b'.pending[|b.pending|] == s; }
    }
  }

  lemma QueueOneInv(cfg: Config, frames: seq<ReplayFrame>, k: nat, queued: nat, b: Book)
    requires NextUp(cfg, frames, k, queued, b)
    ensures BookInv(cfg, frames, k, {}, queued + 1, QueueOne(b, AllSignals(frames)[queued], frames[k - 1].timestamp))
  {
    QueueKeepsHolders(cfg, frames, k, queued, b);
    QueueKeepsTrades(cfg, frames, k, queued, b);
    QueueKeepsSignals(cfg, frames, k, queued, b);
  }

  /** Nobody in the book carries the id of a signal that has no story yet. */
  lemma NewcomerAlone(cfg: Config, frames: seq<ReplayFrame>, k: nat, queued: nat, b: Book)
    requires Input(cfg, frames) && BookInv(cfg, frames, k, {}, queued, b) && queued < |AllSignals(frames)|
    ensures var sid := AllSignals(frames)[queued].signalId;
      && (forall i :: 0 <= i < |b.pending| ==> b.pending[i].signalId != sid)
      && (forall id :: id in b.positions ==> b.positions[id].signal.signalId != sid)
      && (forall i :: 0 <= i < |b.trades| ==> b.trades[i].signal.signalId != sid)
      && Story(b.journal, sid) == []
  {
    var all := AllSignals(frames);
    assert all[queued].signalId !in Ids(all[..queued]);
  }

  lemma {:induction false} QueuePassInv(cfg: Config, frames: seq<ReplayFrame>, k: nat, queued: nat, b: Book, signals: seq<Signal>)
    requires Input(cfg, frames) && 0 < k <= |frames| && ValidSignals(signals)
    requires BookInv(cfg, frames, k, {}, queued, b)
    requires queued + |signals| <= |AllSignals(frames)|
    requires AllSignals(frames)[queued..queued + |signals|] == signals
    requires forall i :: 0 <= i < |signals| ==> signals[i].generatedAt == frames[k - 1].timestamp
    ensures b.Sound()
    ensures BookInv(cfg, frames, k, {}, queued + |signals|, QueuePass(b, signals, frames[k - 1].timestamp))
    decreases |signals|
  {
    hide BookInv, QueueOne, AllSignals;
    Unpack(cfg, frames, k, {}, queued, b);
    if signals != [] {
      var all := AllSignals(frames);
      assert signals[0] == all[queued];
      assert all[queued + 1..queued + |signals|] == signals[1..];
      assert NextUp(cfg, frames, k, queued, b);
      QueueOneInv(cfg, frames, k, queued, b);
      QueuePassInv(cfg, frames, k, queued + 1, QueueOne(b, signals[0], frames[k - 1].timestamp), signals[1..]);
    }
  }

  // ----- every run -----

  /** Beginning a frame owes every open position that frame's bar. */
  lemma BeginFrame(cfg: Config, frames: seq<ReplayFrame>, k: nat, queued: nat, b: Book)
    requires Input(cfg, frames) && k < |frames| && BookInv(cfg, frames, k, {}, queued, b)
    ensures BookInv(cfg, frames, k + 1, b.positions.Keys, queued, b)
  {
    hide PositionInv, TradeInv, Story;
    assert 0 < k ==> frames[k - 1].timestamp < frames[k].timestamp;
  }

  /** The signals of frame `k` are the next ones to queue. */
  lemma NextSignals(frames: seq<ReplayFrame>, k: nat)
    requires k < |frames|
    ensures var q, n := |AllSignals(frames[..k])|, |frames[k].signals|;
      && q + n == |AllSignals(frames[..k + 1])| && q + n <= |AllSignals(frames)|
      && AllSignals(frames)[q..q + n] == frames[k].signals
  {
    assert frames[..k + 1][..k] == frames[..k];
    AllSignalsPrefix(frames, k + 1);
    var all, q, n := AllSignals(frames), |AllSignals(frames[..k])|, |frames[k].signals|;
    assert all[..q + n] == AllSignals(frames[..k]) + frames[k].signals;
    assert all[q..q + n] == all[..q + n][q..];
  }

  lemma FrameInv(cfg: Config, frames: seq<ReplayFrame>, k: nat, queued: nat, b: Book)
    requires Input(cfg, frames) && k < |frames| && BookInv(cfg, frames, k, {}, queued, b)
    requires queued == |AllSignals(frames[..k])|
    ensures b.Sound()
    ensures BookInv(cfg, frames, k + 1, {}, |AllSignals(frames[..k + 1])|, FrameStep(cfg, b, frames[k]))
  {
    hide BookInv, ExitPass, EnterPass, QueuePass, AllSignals;
    Unpack(cfg, frames, k, {}, queued, b);
    var frame := frames[k];
    var bars := FrameBars(frame);
    BeginFrame(cfg, frames, k, queued, b);
    ExitPassInv(cfg, frames, k + 1, b.positions.Keys, queued, b);
    var exited := ExitPass(cfg, b, b.positions.Keys, bars);
    assert WithRest(exited.(pending := []), exited.pending) == exited;
    EnterPassInv(cfg, frames, k + 1, queued, exited.(pending := []), exited.pending);
    NextSignals(frames, k);
    QueuePassInv(cfg, frames, k + 1, queued, EnterPass(cfg, exited.(pending := []), exited.pending, frame.timestamp, bars),
                 frame.signals);
  }

  lemma {:induction false} RunInv(cfg: Config, frames: seq<ReplayFrame>, k: nat)
    requires cfg.Valid() && ValidFrames(frames)
    requires Input(cfg, frames) && k <= |frames|
    ensures BookInv(cfg, frames, k, {}, |AllSignals(frames[..k])|, RunFrames(cfg, frames, k))
  {
    hide BookInv, FrameStep, AllSignals, Input;
    if k == 0 {
      NothingYet(cfg, frames);
    } else {
      RunInv(cfg, frames, k - 1);
      FrameInv(cfg, frames, k - 1, |AllSignals(frames[..k - 1])|, RunFrames(cfg, frames, k - 1));
    }
  }

  lemma NothingYet(cfg: Config, frames: seq<ReplayFrame>)
    requires Input(cfg, frames)
    ensures BookInv(cfg, frames, 0, {}, 0, EMPTY_BOOK) && AllSignals(frames[..0]) == []
  {
  }

  lemma EndOneInv(cfg: Config, frames: seq<ReplayFrame>, queued: nat, b: Book, id: string)
    requires Input(cfg, frames) && BookInv(cfg, frames, |frames|, {}, queued, b)
    ensures var b' := EndOne(cfg, b, id, LatestBars(frames, |frames|));
      && BookInv(cfg, frames, |frames|, {}, queued, b')
      && b'.positions.Keys <= b.positions.Keys
      && (!cfg.partialFills ==> b'.positions.Keys == b.positions.Keys - {id})
  {
    hide TradeInv, ExecuteExit, Exited, Story, Skips, LatestBars, Entered, Tallied, SignalsInv, PendingInv, TradesInv,
      Disjoint, AllSignals;
    var latest := LatestBars(frames, |frames|);
    if id in b.positions {
      var p := b.positions[id];
      assert PositionInv(cfg, frames, |frames|, p, Story(b.journal, p.signal.signalId));
      LastBarMeaning(frames, |frames|, id);
      var bar := latest[id];
      assert p.entryTime <= bar.timestamp;
      if p.lastExitAttempt != Some(bar.timestamp) {
        EndExit(cfg, frames, p, bar, b.journal);
        var r := ExecuteExit(cfg, p, bar, EndOfData);
        ExitStory(cfg, b.journal, p, bar, EndOfData);
        ExitNoSkip(cfg, p, bar, EndOfData);
        assert ExitStep(cfg, frames, |frames|, b, id, r);
        ExitKeepsInv(cfg, frames, |frames|, {}, queued, b, id, r);
        assert {} - {id} == {};
        if r.trade.None? { PartialLeft(cfg, p, bar, EndOfData); }
      }
    }
  }

  lemma {:induction false} EndPassInv(cfg: Config, frames: seq<ReplayFrame>, queued: nat, b: Book, todo: set<string>)
    requires Input(cfg, frames) && BookInv(cfg, frames, |frames|, {}, queued, b)
    ensures b.Sound()
    ensures var b' := EndPass(cfg, b, todo, LatestBars(frames, |frames|));
      && BookInv(cfg, frames, |frames|, {}, queued, b')
      && (!cfg.partialFills ==> b'.positions.Keys == b.positions.Keys - todo)
    decreases |todo|
  {
    hide BookInv, EndOne, LatestBars;
    Unpack(cfg, frames, |frames|, {}, queued, b);
    if todo != {} {
      var id := Least(todo);
      EndOneInv(cfg, frames, queued, b, id);
      EndPassInv(cfg, frames, queued, EndOne(cfg, b, id, LatestBars(frames, |frames|)), todo - {id});
    }
  }

  /** The invariant holds of every finished replay. */
  lemma FinalInv(cfg: Config, frames: seq<ReplayFrame>)
    requires Input(cfg, frames)
    ensures BookInv(cfg, frames, |frames|, {}, |AllSignals(frames)|, FinalBook(cfg, frames))
    ensures !cfg.partialFills ==> FinalBook(cfg, frames).positions == map[]
  {
    hide BookInv, EndPass, LatestBars;
    RunInv(cfg, frames, |frames|);
    assert frames[..|frames|] == frames;
    var b := RunFrames(cfg, frames, |frames|);
    EndPassInv(cfg, frames, |AllSignals(frames)|, b, b.positions.Keys);
    if !cfg.partialFills {
      assert FinalBook(cfg, frames).positions.Keys == {};
    }
  }
}
