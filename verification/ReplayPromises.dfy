/** The engine's promises, stated on its report: the journal is a complete cash ledger, every
    signal has exactly one fate, and no fill looks ahead or uses a bar twice. */
module ReplayPromises {
  import opened Outcomes
  import opened BacktestModels
  import opened ReplayEngine
  import opened ReplayHistory
  import opened ReplayInvariants
  import opened ReplayTheorems

  // ----- reading a journal -----

  /** Sum of `f` over the journal entries of one signal. */
  ghost function Sum(j: seq<JournalEntry>, id: string, f: JournalEntry -> real): real {
    if j == [] then 0.0
    else Sum(j[..|j| - 1], id, f) + (if j[|j| - 1].signalId == id then f(j[|j| - 1]) else 0.0)
  }

  /** Sum of `f` over the whole journal. */
  ghost function SumAll(j: seq<JournalEntry>, f: JournalEntry -> real): real {
    if j == [] then 0.0 else SumAll(j[..|j| - 1], f) + f(j[|j| - 1])
  }

  /** The exit fills of one signal. */
  ghost function FillsOf(j: seq<JournalEntry>, id: string): seq<JournalEntry> {
    if j == [] then []
    else
      var last := j[|j| - 1];
      FillsOf(j[..|j| - 1], id) + (if last.signalId == id && last.event == ExitFill then [last] else [])
  }

  function Value(e: JournalEntry): real {
    if e.price.Some? then Amount(e.price.value, e.quantity) else 0.0
  }

  function Bought(e: JournalEntry): real {
    if e.event == Entry then Value(e) else 0.0
  }

  function Sold(e: JournalEntry): real {
    if e.event == ExitFill then Value(e) else 0.0
  }

  function Fee(cfg: Config, e: JournalEntry): real {
    if e.price.None? || (e.event != Entry && e.event != ExitFill) then 0.0
    else OrderCosts(cfg, e.price.value, e.quantity, e.event == Entry).Total()
  }

  /** Net cash moved by one entry. */
  function Cash(cfg: Config, e: JournalEntry): real {
    Sold(e) - Bought(e) - Fee(cfg, e)
  }

  ghost function BoughtAtAsk(frames: seq<ReplayFrame>, e: JournalEntry): real
    requires ValidFrames(frames)
  {
    var bar := BarAt(frames, e.timestamp, e.instrumentId);
    if e.event == Entry && bar.Some? then Amount(bar.value.ask, e.quantity) else 0.0
  }

  ghost function SoldAtBid(frames: seq<ReplayFrame>, e: JournalEntry): real
    requires ValidFrames(frames)
  {
    var bar := BarAt(frames, e.timestamp, e.instrumentId);
    if e.event == ExitFill && bar.Some? then Amount(bar.value.bid, e.quantity) else 0.0
  }

  ghost predicate Silent(f: JournalEntry -> real) {
    forall e: JournalEntry :: e.event == Unfilled ==> f(e) == 0.0
  }

  /** A sum that ignores "nothing filled" notes can be read off the story. */
  lemma {:induction false} SumStory(j: seq<JournalEntry>, id: string, f: JournalEntry -> real)
    requires Silent(f)
    ensures Sum(j, id, f) == SumAll(Story(j, id), f)
  {
    if j != [] {
      var n := |j| - 1;
      SumStory(j[..n], id, f);
      if j[n].signalId == id && j[n].event != Unfilled {
        SumOne(Story(j[..n], id), j[n], f);
      } else {
        assert Story(j, id) == Story(j[..n], id);
      }
    }
  }

  lemma SumOne(j: seq<JournalEntry>, e: JournalEntry, f: JournalEntry -> real)
    ensures SumAll(j + [e], f) == SumAll(j, f) + f(e)
  {
    assert (j + [e])[..|j|] == j;
  }

  lemma {:induction false} SumConcat(j: seq<JournalEntry>, es: seq<JournalEntry>, f: JournalEntry -> real)
    ensures SumAll(j + es, f) == SumAll(j, f) + SumAll(es, f)
  {
    if es == [] {
      assert j + es == j;
    } else {
      var n := |es| - 1;
      SumConcat(j, es[..n], f);
      assert j + es == (j + es[..n]) + [es[n]];
      SumOne(j + es[..n], es[n], f);
    }
  }

  lemma {:induction false} FillsStory(j: seq<JournalEntry>, id: string)
    ensures FillsOf(j, id) == FillsOf(Story(j, id), id)
  {
    if j != [] {
      var n := |j| - 1;
      FillsStory(j[..n], id);
      if j[n].signalId == id && j[n].event != Unfilled {
        FillsConcat(Story(j[..n], id), [j[n]], id);
      } else {
        assert Story(j, id) == Story(j[..n], id);
      }
    }
  }

  lemma {:induction false} FillsKept(fills: seq<JournalEntry>, id: string)
    requires forall i :: 0 <= i < |fills| ==> fills[i].event == ExitFill && fills[i].signalId == id
    ensures FillsOf(fills, id) == fills
  {
    if fills != [] {
      var n := |fills| - 1;
      FillsKept(fills[..n], id);
      assert fills == fills[..n] + [fills[n]];
    }
  }

  lemma {:induction false} FillsConcat(j: seq<JournalEntry>, es: seq<JournalEntry>, id: string)
    ensures FillsOf(j + es, id) == FillsOf(j, id) + FillsOf(es, id)
  {
    if es == [] {
      assert j + es == j;
    } else {
      var n := |es| - 1;
      assert (j + es)[..|j + es| - 1] == j + es[..n];
      FillsConcat(j, es[..n], id);
    }
  }

  /** Appending the end-of-run notes changes no story. */
  lemma {:induction false} NotesKeepStories(j: seq<JournalEntry>, es: seq<JournalEntry>, id: string)
    requires forall i :: 0 <= i < |es| ==> es[i].event == Unfilled
    ensures Story(j + es, id) == Story(j, id)
  {
    if es == [] {
      assert j + es == j;
    } else {
      var n := |es| - 1;
      assert (j + es)[..|j + es| - 1] == j + es[..n];
      NotesKeepStories(j, es[..n], id);
    }
  }

  lemma ReportStories(cfg: Config, frames: seq<ReplayFrame>)
    requires Input(cfg, frames)
    ensures forall id :: Story(ReportOf(cfg, frames).journal, id) == Story(FinalBook(cfg, frames).journal, id)
  {
    hide FinalBook, Story, NetPnl;
    var b := FinalBook(cfg, frames);
    forall id ensures Story(ReportOf(cfg, frames).journal, id) == Story(b.journal, id) {
      NotesKeepStories(b.journal, Leftovers(b.pending, frames[|frames| - 1].timestamp), id);
    }
  }

  // ----- counting entries -----

  function Count(j: seq<JournalEntry>, id: string, event: Event): nat {
    if j == [] then 0
    else Count(j[..|j| - 1], id, event) + (if j[|j| - 1].signalId == id && j[|j| - 1].event == event then 1 else 0)
  }

  lemma CountOne(j: seq<JournalEntry>, e: JournalEntry, id: string, event: Event)
    ensures Count(j + [e], id, event) == Count(j, id, event) + (if e.signalId == id && e.event == event then 1 else 0)
  {
    assert (j + [e])[..|j|] == j;
  }

  lemma {:induction false} CountStory(j: seq<JournalEntry>, id: string, event: Event)
    requires event != Unfilled
    ensures Count(j, id, event) == Count(Story(j, id), id, event)
  {
    if j != [] {
      var n := |j| - 1;
      CountStory(j[..n], id, event);
      if j[n].signalId == id && j[n].event != Unfilled {
        CountOne(Story(j[..n], id), j[n], id, event);
      } else {
        assert Story(j, id) == Story(j[..n], id);
      }
    }
  }

  lemma {:induction false} CountNone(s: seq<JournalEntry>, id: string, event: Event)
    requires forall i :: 0 <= i < |s| ==> s[i].event != event
    ensures Count(s, id, event) == 0
  {
    if s != [] { CountNone(s[..|s| - 1], id, event); }
  }

  lemma {:induction false} CountConcat(j: seq<JournalEntry>, es: seq<JournalEntry>, id: string, event: Event)
    ensures Count(j + es, id, event) == Count(j, id, event) + Count(es, id, event)
  {
    if es == [] {
      assert j + es == j;
    } else {
      var n := |es| - 1;
      CountConcat(j, es[..n], id, event);
      assert j + es == (j + es[..n]) + [es[n]];
      CountOne(j + es[..n], es[n], id, event);
    }
  }

  /** A closed trade has one signal, one entry and one exit in the journal. */
  lemma ClosedCounts(cfg: Config, frames: seq<ReplayFrame>, j: seq<JournalEntry>, t: Trade)
    requires Input(cfg, frames) && TradeInv(cfg, frames, t, Story(j, t.signal.signalId))
    ensures var id := t.signal.signalId;
      Count(j, id, SignalQueued) == 1 && Count(j, id, Entry) == 1 && Count(j, id, Exit) == 1 && Count(j, id, Skipped) == 0
  {
    hide TradeInv, Story, Count;
    var id := t.signal.signalId;
    var story := Story(j, id);
    ClosedShape(cfg, frames, t, story);
    StoryIds(j, id);
    StoryCounts(story, id);
    CountStory(j, id, SignalQueued);
    CountStory(j, id, Entry);
    CountStory(j, id, Exit);
    CountStory(j, id, Skipped);
  }

  /** A story of a signal, an entry, exit fills and an exit has one of each but the fills. */
  lemma StoryCounts(story: seq<JournalEntry>, id: string)
    requires |story| >= 3 && story[0].event == SignalQueued && story[1].event == Entry && story[|story| - 1].event == Exit
    requires forall i :: 2 <= i < |story| - 1 ==> story[i].event == ExitFill
    requires forall i :: 0 <= i < |story| ==> story[i].signalId == id
    ensures Count(story, id, SignalQueued) == 1 && Count(story, id, Entry) == 1
    ensures Count(story, id, Exit) == 1 && Count(story, id, Skipped) == 0
  {
    hide Count;
    var fills := story[2..|story| - 1];
    StoryParts(story);
    ShapeCounts(story, id, fills, SignalQueued);
    ShapeCounts(story, id, fills, Entry);
    ShapeCounts(story, id, fills, Exit);
    ShapeCounts(story, id, fills, Skipped);
  }

  lemma StoryParts(story: seq<JournalEntry>)
    requires |story| >= 3
    ensures story == [story[0]] + [story[1]] + story[2..|story| - 1] + [story[|story| - 1]]
  {
  }

  lemma SingleCount(e: JournalEntry, id: string, event: Event)
    ensures Count([e], id, event) == if e.signalId == id && e.event == event then 1 else 0
  {
    assert [e][..0] == [];
  }

  lemma ShapeCounts(story: seq<JournalEntry>, id: string, fills: seq<JournalEntry>, event: Event)
    requires |story| >= 3 && event != ExitFill
    requires story == [story[0]] + [story[1]] + fills + [story[|story| - 1]]
    requires forall i :: 0 <= i < |story| ==> story[i].signalId == id
    requires forall i :: 0 <= i < |fills| ==> fills[i].event == ExitFill
    ensures Count(story, id, event) == (if story[0].event == event then 1 else 0) + (if story[1].event == event then 1 else 0)
                                       + (if story[|story| - 1].event == event then 1 else 0)
  {
    hide Count;
    var a, b, last := story[0], story[1], story[|story| - 1];
    SingleCount(a, id, event);
    CountOne([a], b, id, event);
    CountConcat([a] + [b], fills, id, event);
    CountNone(fills, id, event);
    CountOne([a] + [b] + fills, last, id, event);
  }

  // ----- a closed trade is its journal -----

  /** Sums over a run of good exit fills are the flows recomputed from journal and bars. */
  lemma {:induction false} FillSales(cfg: Config, frames: seq<ReplayFrame>, signal: Signal, fills: seq<JournalEntry>)
    requires ValidFrames(frames) && FillsOk(cfg, frames, signal, fills)
    ensures SumAll(fills, Sold) == FlowsOf(cfg, frames, fills).notional
    ensures SumAll(fills, Bought) == 0.0
  {
    hide OrderCosts, Amount, BarAt;
    if fills != [] {
      FillSales(cfg, frames, signal, fills[..|fills| - 1]);
      assert FillOk(cfg, frames, signal, fills[|fills| - 1]);
    }
  }

  lemma {:induction false} FillQuotes(cfg: Config, frames: seq<ReplayFrame>, signal: Signal, fills: seq<JournalEntry>)
    requires ValidFrames(frames) && FillsOk(cfg, frames, signal, fills)
    ensures SumAll(fills, e => SoldAtBid(frames, e)) == FlowsOf(cfg, frames, fills).raw
    ensures SumAll(fills, e => BoughtAtAsk(frames, e)) == 0.0
  {
    hide OrderCosts, Amount, BarAt;
    if fills != [] {
      FillQuotes(cfg, frames, signal, fills[..|fills| - 1]);
      assert FillOk(cfg, frames, signal, fills[|fills| - 1]);
    }
  }

  lemma {:induction false} FillFees(cfg: Config, frames: seq<ReplayFrame>, signal: Signal, fills: seq<JournalEntry>)
    requires ValidFrames(frames) && FillsOk(cfg, frames, signal, fills)
    ensures SumAll(fills, e => Fee(cfg, e)) == FlowsOf(cfg, frames, fills).costs.Total()
  {
    hide OrderCosts, Amount, BarAt;
    if fills != [] {
      FillFees(cfg, frames, signal, fills[..|fills| - 1]);
      assert FillOk(cfg, frames, signal, fills[|fills| - 1]);
    }
  }

  /** The story of a closed trade sums to what its signal, entry, fills and exit contribute. */
  lemma ClosedSum(story: seq<JournalEntry>, f: JournalEntry -> real)
    requires |story| >= 3
    ensures SumAll(story, f)
         == f(story[0]) + f(story[1]) + SumAll(story[2..|story| - 1], f) + f(story[|story| - 1])
  {
    hide SumAll;
    var a, b, fills, last := story[0], story[1], story[2..|story| - 1], story[|story| - 1];
    StoryParts(story);
    SumSingle(a, f);
    SumOne([a], b, f);
    SumConcat([a] + [b], fills, f);
    SumOne([a] + [b] + fills, last, f);
  }

  lemma SumSingle(e: JournalEntry, f: JournalEntry -> real)
    ensures SumAll([e], f) == f(e)
  {
    assert [e][..0] == [];
  }

  ghost predicate LedgerOf(cfg: Config, frames: seq<ReplayFrame>, j: seq<JournalEntry>, t: Trade)
    requires ValidFrames(frames)
  {
    var id := t.signal.signalId;
    && t.grossPnl == Sum(j, id, Sold) - Sum(j, id, Bought)
    && t.grossPnl + t.slippageCost == Sum(j, id, e => SoldAtBid(frames, e)) - Sum(j, id, e => BoughtAtAsk(frames, e))
    && t.TotalCosts() == Sum(j, id, e => Fee(cfg, e))
    && t.netPnl == t.grossPnl - t.TotalCosts()
    && RiskOk(t)
    && Count(j, id, Entry) == 1 && Count(j, id, Exit) == 1
  }

  /** What a closed trade bought and sold, by its journal. */
  lemma TradeCash(cfg: Config, frames: seq<ReplayFrame>, j: seq<JournalEntry>, t: Trade)
    requires Input(cfg, frames) && TradeInv(cfg, frames, t, Story(j, t.signal.signalId))
    ensures var id, fills := t.signal.signalId, Story(j, t.signal.signalId)[2..|Story(j, t.signal.signalId)| - 1];
      Sum(j, id, Sold) == FlowsOf(cfg, frames, fills).notional && Sum(j, id, Bought) == Amount(t.entryPrice, t.quantity)
  {
    hide OrderCosts, Amount, BarAt, Story, EntryOk, FlowsOf, FirstTrigger, SumAll, DueFills, EndFills, RiskOk, CalledFor, ExitRecord, FillsOk;
    var id := t.signal.signalId;
    var story := Story(j, id);
    assert Silent(Sold) && Silent(Bought);
    SumStory(j, id, Sold);
    SumStory(j, id, Bought);
    ClosedSum(story, Sold);
    ClosedSum(story, Bought);
    FillSales(cfg, frames, t.signal, story[2..|story| - 1]);
    ExitEvent(t);
  }

  lemma ExitEvent(t: Trade)
    ensures ExitRecord(t).event == Exit
  {
  }

  /** The same at the raw quotes. */
  lemma TradeQuotes(cfg: Config, frames: seq<ReplayFrame>, j: seq<JournalEntry>, t: Trade)
    requires Input(cfg, frames) && TradeInv(cfg, frames, t, Story(j, t.signal.signalId))
    ensures var id, fills := t.signal.signalId, Story(j, t.signal.signalId)[2..|Story(j, t.signal.signalId)| - 1];
      && Sum(j, id, e => SoldAtBid(frames, e)) == FlowsOf(cfg, frames, fills).raw
      && BarAt(frames, t.entryTime, t.signal.instrumentId).Some?
      && Sum(j, id, e => BoughtAtAsk(frames, e)) == Amount(BarAt(frames, t.entryTime, t.signal.instrumentId).value.ask, t.quantity)
  {
    hide OrderCosts, Amount, BarAt, Story, EntryOk, FlowsOf, FirstTrigger, SumAll, DueFills, EndFills, RiskOk, CalledFor, ExitRecord, FillsOk;
    var id := t.signal.signalId;
    var story := Story(j, id);
    var ask, bid := (e: JournalEntry) => BoughtAtAsk(frames, e), (e: JournalEntry) => SoldAtBid(frames, e);
    assert Silent(ask) && Silent(bid);
    SumStory(j, id, ask);
    SumStory(j, id, bid);
    ClosedSum(story, ask);
    ClosedSum(story, bid);
    FillQuotes(cfg, frames, t.signal, story[2..|story| - 1]);
    EntryBar(cfg, frames, t);
    ExitEvent(t);
  }

  /** Its costs are the fees of its entries. */
  lemma TradeFees(cfg: Config, frames: seq<ReplayFrame>, j: seq<JournalEntry>, t: Trade)
    requires Input(cfg, frames) && TradeInv(cfg, frames, t, Story(j, t.signal.signalId))
    ensures t.TotalCosts() == Sum(j, t.signal.signalId, e => Fee(cfg, e))
  {
    hide OrderCosts, Amount, BarAt, Story, EntryOk, FlowsOf, FirstTrigger, SumAll, DueFills, EndFills, RiskOk, CalledFor, ExitRecord, FillsOk;
    var id := t.signal.signalId;
    var story := Story(j, id);
    var fee := (e: JournalEntry) => Fee(cfg, e);
    assert Silent(fee);
    SumStory(j, id, fee);
    ClosedSum(story, fee);
    FillFees(cfg, frames, t.signal, story[2..|story| - 1]);
    ExitEvent(t);
  }

  lemma TradeLedger(cfg: Config, frames: seq<ReplayFrame>, j: seq<JournalEntry>, t: Trade)
    requires Input(cfg, frames) && TradeInv(cfg, frames, t, Story(j, t.signal.signalId))
    ensures LedgerOf(cfg, frames, j, t)
  {
    hide Amount, BarAt, Story, Entered, FlowsOf, RiskOk, Count, CalledFor, ExitRecord, FillsOk, Sum, Trade.TotalCosts;
    TradeCash(cfg, frames, j, t);
    TradeQuotes(cfg, frames, j, t);
    TradeFees(cfg, frames, j, t);
    ClosedCounts(cfg, frames, j, t);
  }

  lemma EntryBar(cfg: Config, frames: seq<ReplayFrame>, t: Trade)
    requires ValidFrames(frames) && EntryOk(cfg, frames, t.signal, t.entryTime, t.entryPrice, t.quantity)
    ensures BarAt(frames, t.entryTime, t.signal.instrumentId).Some?
  {
  }

  /** Journal replay: each trade's gross and net result, slippage and costs are sums over its
      own journal entries, priced at the journal's prices and at the input's raw quotes. */
  lemma JournalReplay(cfg: Config, frames: seq<ReplayFrame>, i: nat)
    requires Input(cfg, frames) && i < |ReportOf(cfg, frames).trades|
    ensures LedgerOf(cfg, frames, ReportOf(cfg, frames).journal, ReportOf(cfg, frames).trades[i])
  {
    hide FinalBook, TradeInv, LedgerOf, Story, NetPnl, PendingInv, PositionsInv, SignalsInv, Disjoint;
    FinalInv(cfg, frames);
    ReportStories(cfg, frames);
    TradeLedger(cfg, frames, ReportOf(cfg, frames).journal, ReportOf(cfg, frames).trades[i]);
  }

  // ----- ending capital -----

  lemma {:induction false} CashSum(cfg: Config, j: seq<JournalEntry>, id: string)
    ensures Sum(j, id, e => Cash(cfg, e)) == Sum(j, id, Sold) - Sum(j, id, Bought) - Sum(j, id, e => Fee(cfg, e))
  {
    hide OrderCosts, Amount, Fee, Sold, Bought;
    if j != [] { CashSum(cfg, j[..|j| - 1], id); }
  }

  /** Cash moved by the journal entries of the given trades. */
  ghost function TradesCash(cfg: Config, j: seq<JournalEntry>, trades: seq<Trade>): real {
    if trades == [] then 0.0
    else TradesCash(cfg, j, trades[..|trades| - 1]) + Sum(j, trades[|trades| - 1].signal.signalId, e => Cash(cfg, e))
  }

  lemma {:induction false} NetIsCash(cfg: Config, frames: seq<ReplayFrame>, j: seq<JournalEntry>, trades: seq<Trade>)
    requires ValidFrames(frames)
    requires forall i :: 0 <= i < |trades| ==> LedgerOf(cfg, frames, j, trades[i])
    ensures NetPnl(trades) == TradesCash(cfg, j, trades)
  {
    hide OrderCosts, Amount, Fee, Sold, Bought, Cash, SoldAtBid, BoughtAtAsk;
    if trades != [] {
      var n := |trades| - 1;
      NetIsCash(cfg, frames, j, trades[..n]);
      assert LedgerOf(cfg, frames, j, trades[n]);
      CashSum(cfg, j, trades[n].signal.signalId);
    }
  }

  ghost predicate TradeIds(trades: seq<Trade>, id: string) {
    exists i :: 0 <= i < |trades| && trades[i].signal.signalId == id
  }

  ghost predicate DistinctTrades(trades: seq<Trade>) {
    forall i, l :: 0 <= i < l < |trades| ==> trades[i].signal.signalId != trades[l].signal.signalId
  }

  /** One more journal entry reaches the trades' cash exactly when one of them owns it. */
  lemma {:induction false} TradesCashStep(cfg: Config, j: seq<JournalEntry>, trades: seq<Trade>)
    requires j != [] && DistinctTrades(trades)
    ensures TradesCash(cfg, j, trades) == TradesCash(cfg, j[..|j| - 1], trades)
              + (if TradeIds(trades, j[|j| - 1].signalId) then Cash(cfg, j[|j| - 1]) else 0.0)
  {
    hide Cash;
    if trades != [] {
      var n := |trades| - 1;
      var e := j[|j| - 1];
      TradesCashStep(cfg, j, trades[..n]);
      assert TradeIds(trades, e.signalId) <==> TradeIds(trades[..n], e.signalId) || trades[n].signal.signalId == e.signalId by {
        assert trades == trades[..n] + [trades[n]];
        if TradeIds(trades[..n], e.signalId) {
          var i :| 0 <= i < n && trades[..n][i].signal.signalId == e.signalId;
          assert trades[i].signal.signalId == e.signalId;
        }
        if i :| 0 <= i < |trades| && trades[i].signal.signalId == e.signalId {
          if i < n { assert trades[..n][i].signal.signalId == e.signalId; }
        }
      }
    }
  }

  /** When every entry that moves cash belongs to a trade, the trades hold all the cash. */
  lemma {:induction false} AllCashIsTrades(cfg: Config, j: seq<JournalEntry>, trades: seq<Trade>)
    requires DistinctTrades(trades)
    requires forall i :: 0 <= i < |j| && Cash(cfg, j[i]) != 0.0 ==> TradeIds(trades, j[i].signalId)
    ensures SumAll(j, e => Cash(cfg, e)) == TradesCash(cfg, j, trades)
  {
    hide Cash;
    if j == [] {
      NoCash(cfg, trades);
    } else {
      TradesCashStep(cfg, j, trades);
      AllCashIsTrades(cfg, j[..|j| - 1], trades);
    }
  }

  lemma {:induction false} NoCash(cfg: Config, trades: seq<Trade>)
    ensures TradesCash(cfg, [], trades) == 0.0
  {
    if trades != [] { NoCash(cfg, trades[..|trades| - 1]); }
  }

  lemma {:induction false} StoryMember(j: seq<JournalEntry>, i: nat)
    requires i < |j| && j[i].event != Unfilled
    ensures j[i] in Story(j, j[i].signalId)
  {
    if i < |j| - 1 { StoryMember(j[..|j| - 1], i); }
  }

  lemma {:induction false} StoryIds(j: seq<JournalEntry>, id: string)
    ensures forall i :: 0 <= i < |Story(j, id)| ==> Story(j, id)[i].signalId == id
  {
    if j != [] { StoryIds(j[..|j| - 1], id); }
  }

  lemma SkippedStory(b: Book, s: Signal)
    requires IsSkipped(b, s)
    ensures forall e :: e in Story(b.journal, s.signalId) ==> e.event == SignalQueued || e.event == Skipped
  {
    hide Story;
  }

  /** An entry or exit fill belongs to an open position or to a trade. */
  lemma CashOwner(cfg: Config, frames: seq<ReplayFrame>, b: Book, j: seq<JournalEntry>, i: nat)
    requires Input(cfg, frames) && BookInv(cfg, frames, |frames|, {}, |AllSignals(frames)|, b) && i < |j|
    requires forall id :: Story(j, id) == Story(b.journal, id)
    requires j[i].event == Entry || j[i].event == ExitFill
    ensures TradeIds(b.trades, j[i].signalId) || (exists id :: id in b.positions && b.positions[id].signal.signalId == j[i].signalId)
  {
    hide TradeInv, PositionInv, Story, AllSignals, Skips, Disjoint, PositionsInv, TradesInv, PendingInv, IsSkipped;
    StoryMember(j, i);
    var sid := j[i].signalId;
    var all := AllSignals(frames);
    assert all[..|all|] == all;
    assert sid in Ids(all);
    var l :| 0 <= l < |all| && all[l].signalId == sid;
    var s := all[l];
    assert Accounted(b, s);
    if s in b.pending {
      PendingStory(frames, |frames|, b, s);
    } else if IsSkipped(b, s) {
      SkippedStory(b, s);
    } else if IsClosed(b, s) {
      var q :| 0 <= q < |b.trades| && b.trades[q].signal == s;
      assert b.trades[q].signal.signalId == sid;
    }
  }

  /** Ending capital is the starting capital plus each trade's gross result less its costs,
      that is, plus the cash its journal entries moved; with nothing left open it is the whole
      journal replayed as a cash ledger. */
  lemma EndingCapital(cfg: Config, frames: seq<ReplayFrame>)
    requires Input(cfg, frames)
    ensures var r := ReportOf(cfg, frames);
      && r.endingCapital == r.initialCapital + NetPnl(r.trades)
      && NetPnl(r.trades) == TradesCash(cfg, r.journal, r.trades)
      && (r.openPositions == map[] ==> r.endingCapital == r.initialCapital + SumAll(r.journal, e => Cash(cfg, e)))
  {
    hide FinalBook, TradeInv, LedgerOf, Story, NetPnl, PositionsInv, Fee, Sold, Bought, TradesCash, SumAll;
    var r := ReportOf(cfg, frames);
    var b := FinalBook(cfg, frames);
    FinalInv(cfg, frames);
    ReportStories(cfg, frames);
    forall i | 0 <= i < |r.trades| ensures LedgerOf(cfg, frames, r.journal, r.trades[i]) {
      JournalReplay(cfg, frames, i);
    }
    NetIsCash(cfg, frames, r.journal, r.trades);
    if r.openPositions == map[] {
      forall i | 0 <= i < |r.journal| && Cash(cfg, r.journal[i]) != 0.0 ensures TradeIds(r.trades, r.journal[i].signalId) {
        CashEvents(cfg, r.journal[i]);
        CashOwner(cfg, frames, b, r.journal, i);
      }
      AllCashIsTrades(cfg, r.journal, r.trades);
    }
  }

  lemma CashEvents(cfg: Config, e: JournalEntry)
    requires Cash(cfg, e) != 0.0
    ensures e.event == Entry || e.event == ExitFill
  {
  }

  // ----- fates, overlap, causality, liquidity -----

  lemma {:induction false} CountHead(s: seq<JournalEntry>, id: string, event: Event)
    requires s != [] && s[0].signalId == id && s[0].event == event
    requires forall i :: 1 <= i < |s| ==> s[i].event != event
    ensures Count(s, id, event) == 1
  {
    if |s| > 1 {
      CountHead(s[..|s| - 1], id, event);
    } else {
      CountNone(s[..0], id, event);
    }
  }

  /** Exactly one of four mutually exclusive fates. */
  ghost predicate OneFate(b: Book, s: Signal) {
    var fates := [s in b.pending, IsOpen(b, s), IsClosed(b, s), IsSkipped(b, s)];
    exists k :: 0 <= k < 4 && fates[k] && forall l :: 0 <= l < 4 && l != k ==> !fates[l]
  }

  /** How a story begins and ends, by fate. */
  ghost predicate Shape(b: Book, s: Signal) {
    var story := Story(b.journal, s.signalId);
    && |story| >= 1 && story[0].event == SignalQueued && story[0].signalId == s.signalId
    && (forall i :: 1 <= i < |story| ==> story[i].event != SignalQueued)
    && (s in b.pending ==> |story| == 1)
    && (IsOpen(b, s) ==> |story| >= 2 && story[1].event == Entry && story[|story| - 1].event != Exit)
    && (IsClosed(b, s) ==> |story| >= 3 && story[1].event == Entry && story[|story| - 1].event == Exit)
  }

  lemma Shaped(cfg: Config, frames: seq<ReplayFrame>, b: Book, s: Signal, l: nat)
    requires Input(cfg, frames) && BookInv(cfg, frames, |frames|, {}, |AllSignals(frames)|, b)
    requires l < |AllSignals(frames)| && s == AllSignals(frames)[l]
    ensures Shape(b, s)
  {
    hide Story, AllSignals, Skips, PositionInv, TradeInv, Disjoint;
    assert Accounted(b, s);
    StoryIds(b.journal, s.signalId);
    if s in b.pending { PendingStory(frames, |frames|, b, s); }
    if IsOpen(b, s) { OpenShape(cfg, frames, |frames|, b.positions[s.instrumentId], Story(b.journal, s.signalId)); }
    if IsClosed(b, s) {
      var q :| 0 <= q < |b.trades| && b.trades[q].signal == s;
      ClosedShape(cfg, frames, b.trades[q], Story(b.journal, s.signalId));
    }
  }

  /** Every signal has one SIGNAL entry and exactly one fate, and the fates add up. */
  lemma SignalConservation(cfg: Config, frames: seq<ReplayFrame>)
    requires Input(cfg, frames)
    ensures var b, j, all := FinalBook(cfg, frames), ReportOf(cfg, frames).journal, AllSignals(frames);
      && (forall i :: 0 <= i < |all| ==> OneFate(b, all[i]) && Count(j, all[i].signalId, SignalQueued) == 1)
      && |all| == |b.pending| + |b.positions| + |b.trades| + Skips(b.journal)
  {
    hide FinalBook, Story, Skips, AllSignals, Accounted, PendingInv, PositionsInv, TradesInv;
    var b, j, all := FinalBook(cfg, frames), ReportOf(cfg, frames).journal, AllSignals(frames);
    FinalInv(cfg, frames);
    ReportStories(cfg, frames);
    forall i | 0 <= i < |all| ensures OneFate(b, all[i]) && Count(j, all[i].signalId, SignalQueued) == 1 {
      Shaped(cfg, frames, b, all[i], i);
      CountStory(j, all[i].signalId, SignalQueued);
      CountHead(Story(j, all[i].signalId), all[i].signalId, SignalQueued);
      ShapeOneFate(b, all[i]);
    }
  }

  lemma ShapeOneFate(b: Book, s: Signal)
    requires Shape(b, s) && Accounted(b, s)
    ensures OneFate(b, s)
  {
    hide Story;
    var fates := [s in b.pending, IsOpen(b, s), IsClosed(b, s), IsSkipped(b, s)];
    var k := if s in b.pending then 0 else if IsOpen(b, s) then 1 else if IsClosed(b, s) then 2 else 3;
    assert fates[k] && forall l :: 0 <= l < 4 && l != k ==> !fates[l];
  }

  /** Two trades on one instrument never overlap beyond touching. */
  lemma NoOverlap(cfg: Config, frames: seq<ReplayFrame>, i: nat, l: nat)
    requires Input(cfg, frames) && i < l < |ReportOf(cfg, frames).trades|
    requires ReportOf(cfg, frames).trades[i].signal.instrumentId == ReportOf(cfg, frames).trades[l].signal.instrumentId
    ensures var t, u := ReportOf(cfg, frames).trades[i], ReportOf(cfg, frames).trades[l];
      t.entryTime <= t.exitTime <= u.entryTime <= u.exitTime
  {
    hide FinalBook, NetPnl, Story, PositionsInv, PendingInv, SignalsInv;
    FinalInv(cfg, frames);
    assert Disjoint(FinalBook(cfg, frames));
  }

  /** Entry after its signal; exits after the entry, at the first bar that calls for one, unless
      the data ended first; every fill on its own bar, in whole lots, inside the cap. */
  ghost predicate Causal(cfg: Config, frames: seq<ReplayFrame>, signal: Signal, entryTime: int, price: real, quantity: int,
                         reason: Option<ExitReason>, fills: seq<JournalEntry>)
    requires ValidFrames(frames)
  {
    var trigger := FirstTrigger(frames, |frames|, signal, entryTime);
    && EntryOk(cfg, frames, signal, entryTime, price, quantity)
    && FillsOk(cfg, frames, signal, fills)
    && match reason
       case None => trigger.None? && fills == []
       case Some(EndOfData) => trigger.None? && fills == EndFills(cfg, frames, signal, quantity)
       case Some(r) => trigger == Some(r) && LaterThan(fills, entryTime) && fills == DueFills(cfg, frames, |frames|, signal, entryTime, quantity)
  }

  lemma TradeCausality(cfg: Config, frames: seq<ReplayFrame>, i: nat)
    requires Input(cfg, frames) && i < |ReportOf(cfg, frames).trades|
    ensures var t := ReportOf(cfg, frames).trades[i];
      Causal(cfg, frames, t.signal, t.entryTime, t.entryPrice, t.quantity, Some(t.exitReason),
             FillsOf(ReportOf(cfg, frames).journal, t.signal.signalId))
  {
    hide FinalBook, NetPnl, Story, PositionsInv, PendingInv, SignalsInv, BarAt, EntryOk, FlowsOf, FirstTrigger, Amount,
      OrderCosts, FillsOf, DueFills, EndFills, RiskOk, Disjoint;
    var j := ReportOf(cfg, frames).journal;
    var t := ReportOf(cfg, frames).trades[i];
    FinalInv(cfg, frames);
    ReportStories(cfg, frames);
    var story := Story(j, t.signal.signalId);
    assert TradeInv(cfg, frames, t, story);
    var fills := story[2..|story| - 1];
    assert story == [story[0], story[1]] + fills + [story[|story| - 1]];
    StoryFills(cfg, frames, j, t.signal, [story[0], story[1]], fills, [story[|story| - 1]]);
  }

  lemma OpenCausality(cfg: Config, frames: seq<ReplayFrame>, id: string)
    requires Input(cfg, frames) && id in ReportOf(cfg, frames).openPositions
    ensures var p := ReportOf(cfg, frames).openPositions[id];
      var fills := FillsOf(ReportOf(cfg, frames).journal, p.signal.signalId);
      && Causal(cfg, frames, p.signal, p.entryTime, p.entryPrice, p.quantity, p.exitReason, fills)
      && p.remainingQuantity == p.quantity - FlowsOf(cfg, frames, fills).quantity && p.remainingQuantity > 0
  {
    hide FinalBook, NetPnl, Story, TradesInv, PendingInv, SignalsInv, BarAt, EntryOk, FlowsOf, FirstTrigger, LastBar, Amount,
      OrderCosts, FillsOf;
    var j := ReportOf(cfg, frames).journal;
    var p := ReportOf(cfg, frames).openPositions[id];
    FinalInv(cfg, frames);
    ReportStories(cfg, frames);
    var story := Story(j, p.signal.signalId);
    assert PositionInv(cfg, frames, |frames|, p, story);
    assert story == [story[0], story[1]] + story[2..] + [];
    StoryFills(cfg, frames, j, p.signal, [story[0], story[1]], story[2..], []);
  }

  /** The exit fills of a story are its middle part. */
  lemma StoryFills(cfg: Config, frames: seq<ReplayFrame>, j: seq<JournalEntry>, signal: Signal, head: seq<JournalEntry>,
                   fills: seq<JournalEntry>, tail: seq<JournalEntry>)
    requires ValidFrames(frames) && FillsOk(cfg, frames, signal, fills)
    requires Story(j, signal.signalId) == head + fills + tail && |tail| <= 1
    requires |head| == 2 && head[0].event == SignalQueued && head[1].event == Entry
    requires tail != [] ==> tail[0].event == Exit
    ensures FillsOf(j, signal.signalId) == fills
  {
    hide Story, FillsOf, FillsOk;
    var id := signal.signalId;
    FillsStory(j, id);
    FillsConcat(head + fills, tail, id);
    FillsConcat(head, fills, id);
    FillEvents(cfg, frames, signal, fills);
    FillsKept(fills, id);
    assert head == [head[0]] + [head[1]];
    FillsConcat([head[0]], [head[1]], id);
    NotAFill(head[0], id);
    NotAFill(head[1], id);
    if tail != [] {
      NotAFill(tail[0], id);
      assert tail == [tail[0]];
    } else {
      assert head + fills + tail == head + fills;
    }
  }

  lemma NotAFill(e: JournalEntry, id: string)
    requires e.event != ExitFill
    ensures FillsOf([e], id) == []
  {
    assert [e][..0] == [];
  }

  /** In full-fill mode nothing is left open. */
  lemma FullFillsClose(cfg: Config, frames: seq<ReplayFrame>)
    requires Input(cfg, frames) && !cfg.partialFills
    ensures ReportOf(cfg, frames).openPositions == map[]
  {
    FinalInv(cfg, frames);
  }
}
