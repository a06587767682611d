/** Report metrics: running-peak drawdown, merged exposure and grouping, each against a simple
    definition of what it should be. */
module Metrics {
  import opened Ordering
  import opened Outcomes
  import opened BacktestModels
  import opened ReplayEngine
  import opened ReplayHistory
  import opened ReplayInvariants
  import opened ReplayTheorems

  // ----- maximum drawdown -----

  predicate ExitOrder(a: Trade, b: Trade) {
    a.exitTime < b.exitTime || (a.exitTime == b.exitTime && StringLeq(a.signal.signalId, b.signal.signalId))
  }

  /** Trades by exit time, ties by signal id. */
  lemma ByExit(trades: seq<Trade>)
    ensures var r := Sort(ExitOrder, trades);
      && multiset(r) == multiset(trades)
      && forall i, k :: 0 <= i < k < |r| ==>
           r[i].exitTime < r[k].exitTime || (r[i].exitTime == r[k].exitTime && StringLeq(r[i].signal.signalId, r[k].signal.signalId))
  {
    forall a, b ensures ExitOrder(a, b) || ExitOrder(b, a) {
      StringLeqTotal(a.signal.signalId, b.signal.signalId);
    }
    forall a, b, c | ExitOrder(a, b) && ExitOrder(b, c) ensures ExitOrder(a, c) {
      if a.exitTime == b.exitTime == c.exitTime {
        StringLeqTransitive(a.signal.signalId, b.signal.signalId, c.signal.signalId);
      }
    }
    SortCorrect(ExitOrder, trades);
  }

  /** Equity after the first `i` trades. */
  function Equity(initial: real, trades: seq<Trade>, i: nat): real
    requires i <= |trades|
  {
    initial + NetPnl(trades[..i])
  }

  /** The largest fall from any earlier equity to any later one. */
  ghost predicate IsMaxDrawdown(initial: real, trades: seq<Trade>, m: real) {
    && (forall i, k :: 0 <= i <= k <= |trades| ==> Equity(initial, trades, i) - Equity(initial, trades, k) <= m)
    && (exists i, k :: 0 <= i <= k <= |trades| && Equity(initial, trades, i) - Equity(initial, trades, k) == m)
  }

  lemma EquityStep(initial: real, trades: seq<Trade>, i: nat)
    requires i < |trades|
    ensures Equity(initial, trades, i + 1) == Equity(initial, trades, i) + trades[i].netPnl
  {
    assert trades[..i + 1][..i] == trades[..i];
  }

  ghost predicate PeakUpTo(initial: real, trades: seq<Trade>, n: nat, peak: real)
    requires n <= |trades|
  {
    && (forall p :: 0 <= p <= n ==> Equity(initial, trades, p) <= peak)
    && (exists p :: 0 <= p <= n && Equity(initial, trades, p) == peak)
  }

  ghost predicate WorstUpTo(initial: real, trades: seq<Trade>, n: nat, worst: real)
    requires n <= |trades|
  {
    && (forall p, q :: 0 <= p <= q <= n ==> Equity(initial, trades, p) - Equity(initial, trades, q) <= worst)
    && (exists p, q :: 0 <= p <= q <= n && Equity(initial, trades, p) - Equity(initial, trades, q) == worst)
  }

  lemma PeakStep(initial: real, trades: seq<Trade>, n: nat, peak: real)
    requires n < |trades| && PeakUpTo(initial, trades, n, peak)
    ensures var e := Equity(initial, trades, n + 1); PeakUpTo(initial, trades, n + 1, if e > peak then e else peak)
  {
    hide Equity;
    var p :| 0 <= p <= n && Equity(initial, trades, p) == peak;
  }

  lemma WorstStep(initial: real, trades: seq<Trade>, n: nat, peak: real, worst: real)
    requires n < |trades| && PeakUpTo(initial, trades, n + 1, peak) && WorstUpTo(initial, trades, n, worst)
    ensures var fall := peak - Equity(initial, trades, n + 1);
      WorstUpTo(initial, trades, n + 1, if fall > worst then fall else worst)
  {
    hide Equity;
    var p, q :| 0 <= p <= q <= n && Equity(initial, trades, p) - Equity(initial, trades, q) == worst;
    var top :| 0 <= top <= n + 1 && Equity(initial, trades, top) == peak;
    assert Equity(initial, trades, top) - Equity(initial, trades, n + 1) == peak - Equity(initial, trades, n + 1);
  }

  /** One pass with a running peak finds the largest fall between any two points. */
  method MaximumDrawdown(initial: real, trades: seq<Trade>) returns (maximum: real)
    ensures IsMaxDrawdown(initial, Sort(ExitOrder, trades), maximum)
    ensures maximum >= 0.0
  {
    hide Equity, PeakUpTo, WorstUpTo;
    var ordered := Sort(ExitOrder, trades);
    var equity, peak := initial, initial;
    maximum := 0.0;
    EquityStart(initial, ordered);
    for i := 0 to |ordered|
      invariant equity == Equity(initial, ordered, i)
      invariant PeakUpTo(initial, ordered, i, peak)
      invariant WorstUpTo(initial, ordered, i, maximum) && maximum >= 0.0
    {
      EquityStep(initial, ordered, i);
      PeakStep(initial, ordered, i, peak);
      equity := equity + ordered[i].netPnl;
      peak := if equity > peak then equity else peak;
      WorstStep(initial, ordered, i, peak, maximum);
      maximum := if peak - equity > maximum then peak - equity else maximum;
    }
    WorstIsMax(initial, ordered, maximum);
  }

  lemma WorstIsMax(initial: real, trades: seq<Trade>, worst: real)
    requires WorstUpTo(initial, trades, |trades|, worst)
    ensures IsMaxDrawdown(initial, trades, worst)
  {
    hide Equity;
  }

  lemma EquityStart(initial: real, trades: seq<Trade>)
    ensures Equity(initial, trades, 0) == initial
    ensures PeakUpTo(initial, trades, 0, initial) && WorstUpTo(initial, trades, 0, 0.0)
  {
    assert Equity(initial, trades, 0) - Equity(initial, trades, 0) == 0.0;
  }

  // ----- exposure -----

  datatype Interval = Interval(start: int, end: int)

  predicate IntervalLeq(a: Interval, b: Interval) {
    a.start < b.start || (a.start == b.start && a.end <= b.end)
  }

  ghost predicate CoveredAt(s: seq<Interval>, t: int) {
    exists i :: 0 <= i < |s| && s[i].start <= t < s[i].end
  }

  /** The number of microseconds from `lo` up to `hi` that some interval covers. */
  ghost function Measure(s: seq<Interval>, lo: int, hi: int): nat
    decreases hi - lo
  {
    if lo >= hi then 0 else Measure(s, lo, hi - 1) + (if CoveredAt(s, hi - 1) then 1 else 0)
  }

  lemma {:induction false} MeasureSplit(s: seq<Interval>, lo: int, mid: int, hi: int)
    requires lo <= mid <= hi
    ensures Measure(s, lo, hi) == Measure(s, lo, mid) + Measure(s, mid, hi)
    decreases hi - mid
  {
    if mid < hi { MeasureSplit(s, lo, mid, hi - 1); }
  }

  lemma {:induction false} MeasureFull(s: seq<Interval>, lo: int, hi: int)
    requires lo <= hi && forall t :: lo <= t < hi ==> CoveredAt(s, t)
    ensures Measure(s, lo, hi) == hi - lo
    decreases hi - lo
  {
    if lo < hi { MeasureFull(s, lo, hi - 1); }
  }

  lemma {:induction false} MeasureNone(s: seq<Interval>, lo: int, hi: int)
    requires forall t :: lo <= t < hi ==> !CoveredAt(s, t)
    ensures Measure(s, lo, hi) == 0
    decreases hi - lo
  {
    if lo < hi { MeasureNone(s, lo, hi - 1); }
  }

  lemma {:induction false} MeasureSame(s: seq<Interval>, s': seq<Interval>, lo: int, hi: int)
    requires forall t :: lo <= t < hi ==> (CoveredAt(s, t) <==> CoveredAt(s', t))
    ensures Measure(s, lo, hi) == Measure(s', lo, hi)
    decreases hi - lo
  {
    if lo < hi { MeasureSame(s, s', lo, hi - 1); }
  }

  lemma {:induction false} MeasureAtMost(s: seq<Interval>, lo: int, hi: int)
    requires lo <= hi
    ensures Measure(s, lo, hi) <= hi - lo
    decreases hi - lo
  {
    if lo < hi { MeasureAtMost(s, lo, hi - 1); }
  }

  lemma CoveredAppend(s: seq<Interval>, x: Interval, t: int)
    ensures CoveredAt(s + [x], t) <==> CoveredAt(s, t) || x.start <= t < x.end
  {
    var s' := s + [x];
    if CoveredAt(s, t) {
      var i :| 0 <= i < |s| && s[i].start <= t < s[i].end;
      assert s'[i] == s[i];
    }
    if x.start <= t < x.end { assert s'[|s|] == x; }
  }

  /** State of the sweep over the first intervals: everything from `start` on is one block. */
  ghost predicate Swept(s: seq<Interval>, lo: int, covered: int, start: int, end: int) {
    && lo <= start <= end
    && (forall t :: start <= t ==> (CoveredAt(s, t) <==> t < end))
    && covered == Measure(s, lo, start)
  }

  lemma SweepStep(s: seq<Interval>, x: Interval, lo: int, covered: int, start: int, end: int)
    requires Swept(s, lo, covered, start, end) && start <= x.start <= x.end
    ensures x.start <= end ==> Swept(s + [x], lo, covered, start, if x.end > end then x.end else end)
    ensures x.start > end ==> Swept(s + [x], lo, covered + (end - start), x.start, x.end)
  {
    var s' := s + [x];
    forall t ensures CoveredAt(s', t) <==> CoveredAt(s, t) || x.start <= t < x.end {
      CoveredAppend(s, x, t);
    }
    hide CoveredAt, Measure;
    if x.start <= end {
      MeasureSame(s, s', lo, start);
    } else {
      MeasureSame(s, s', lo, x.start);
      MeasureSplit(s, lo, start, x.start);
      MeasureSplit(s, start, end, x.start);
      MeasureFull(s, start, end);
      MeasureNone(s, end, x.start);
    }
  }

  lemma SweepEnd(s: seq<Interval>, lo: int, hi: int, covered: int, start: int, end: int)
    requires Swept(s, lo, covered, start, end) && end <= hi
    ensures covered + (end - start) == Measure(s, lo, hi)
  {
    MeasureSplit(s, lo, start, hi);
    MeasureSplit(s, start, end, hi);
    MeasureFull(s, start, end);
    MeasureNone(s, end, hi);
  }

  function Holdings(trades: seq<Trade>): seq<Interval> {
    seq(|trades|, i requires 0 <= i < |trades| => Interval(trades[i].entryTime, trades[i].exitTime))
  }

  /** An instant counts as exposed when some trade was entered by then and not yet exited. */
  lemma HoldingsMeaning(trades: seq<Trade>, t: int)
    ensures CoveredAt(Holdings(trades), t) <==> exists i :: 0 <= i < |trades| && trades[i].entryTime <= t < trades[i].exitTime
  {
    var s := Holdings(trades);
    if CoveredAt(s, t) {
      var i :| 0 <= i < |s| && s[i].start <= t < s[i].end;
      assert trades[i].entryTime <= t < trades[i].exitTime;
    }
    if i :| 0 <= i < |trades| && trades[i].entryTime <= t < trades[i].exitTime {
      assert s[i].start <= t < s[i].end;
    }
  }

  ghost predicate WellFormed(s: seq<Interval>, lo: int, hi: int) {
    forall i :: 0 <= i < |s| ==> lo <= s[i].start <= s[i].end <= hi
  }

  /** Reordering intervals changes neither their bounds nor what they cover. */
  lemma SortedIntervals(s: seq<Interval>, lo: int, hi: int)
    ensures var r := Sort(IntervalLeq, s);
      && |r| == |s| && SortedBy(IntervalLeq, r)
      && (WellFormed(s, lo, hi) ==> WellFormed(r, lo, hi))
      && Measure(r, lo, hi) == Measure(s, lo, hi)
  {
    hide Measure, CoveredAt;
    var r := Sort(IntervalLeq, s);
    SortCorrect(IntervalLeq, s);
    SameMembers(r, s);
    SameMembers(s, r);
    forall t ensures CoveredAt(r, t) <==> CoveredAt(s, t) {
      CoverageGrows(r, s, t);
      CoverageGrows(s, r, t);
    }
    MeasureSame(s, r, lo, hi);
  }

  lemma SameMembers(r: seq<Interval>, s: seq<Interval>)
    requires multiset(r) == multiset(s)
    ensures forall i :: 0 <= i < |r| ==> r[i] in s
  {
    forall i | 0 <= i < |r| ensures r[i] in s { assert r[i] in multiset(r); }
  }

  lemma CoverageGrows(r: seq<Interval>, s: seq<Interval>, t: int)
    requires forall i :: 0 <= i < |r| ==> r[i] in s
    ensures CoveredAt(r, t) ==> CoveredAt(s, t)
  {
    if CoveredAt(r, t) {
      var i :| 0 <= i < |r| && r[i].start <= t < r[i].end;
      var l :| 0 <= l < |s| && s[l] == r[i];
    }
  }

  /** Merges sorted intervals in one pass; the result is the measure of their union. */
  method MergedLength(intervals: seq<Interval>, ghost lo: int, ghost hi: int) returns (covered: int)
    requires intervals != [] && SortedBy(IntervalLeq, intervals)
    ensures WellFormed(intervals, lo, hi) ==> covered == Measure(intervals, lo, hi)
  {
    hide CoveredAt, Measure;
    covered := 0;
    var start, end := intervals[0].start, intervals[0].end;
    ghost var good := WellFormed(intervals, lo, hi);
    if good { FirstBlock(intervals[0], lo); }
    assert intervals[..1] == [intervals[0]];
    for i := 1 to |intervals|
      invariant good ==> Swept(intervals[..i], lo, covered, start, end) && end <= hi
      invariant start <= intervals[i - 1].start
    {
      var x := intervals[i];
      assert IntervalLeq(intervals[i - 1], x);
      assert intervals[..i + 1] == intervals[..i] + [x];
      if good { SweepStep(intervals[..i], x, lo, covered, start, end); }
      if x.start <= end {
        end := if x.end > end then x.end else end;
      } else {
        covered := covered + (end - start);
        start, end := x.start, x.end;
      }
    }
    assert intervals[..|intervals|] == intervals;
    if good { SweepEnd(intervals, lo, hi, covered, start, end); }
    covered := covered + (end - start);
  }

  lemma FirstBlock(x: Interval, lo: int)
    requires lo <= x.start <= x.end
    ensures Swept([x], lo, 0, x.start, x.end)
  {
    forall t ensures CoveredAt([x], t) <==> x.start <= t < x.end {
      CoveredAppend([], x, t);
      assert [] + [x] == [x];
    }
    MeasureNone([x], lo, x.start);
  }

  /** The share of the replay during which some position was held. For trades inside the replay
      the ratio is the measure of the union of holding intervals, and the clamp is idle. */
  method ExposureRatio(startedAt: int, endedAt: int, trades: seq<Trade>) returns (ratio: real)
    ensures 0.0 <= ratio <= 1.0
    ensures endedAt <= startedAt || trades == [] ==> ratio == 0.0
    ensures startedAt < endedAt && WellFormed(Holdings(trades), startedAt, endedAt) ==>
              ratio * ((endedAt - startedAt) as real) == Measure(Holdings(trades), startedAt, endedAt) as real
  {
    hide CoveredAt, Measure;
    var total := endedAt - startedAt;
    if total <= 0 || trades == [] {
      if trades == [] && total > 0 { Unheld(startedAt, endedAt); }
      return 0.0;
    }
    SortedIntervals(Holdings(trades), startedAt, endedAt);
    var covered := MergedLength(Sort(IntervalLeq, Holdings(trades)), startedAt, endedAt);
    MeasureAtMost(Holdings(trades), startedAt, endedAt);
    var share := covered as real / total as real;
    ShareBounds(covered, total);
    ratio := if share < 0.0 then 0.0 else share;
    ratio := if ratio > 1.0 then 1.0 else ratio;
  }

  lemma Unheld(lo: int, hi: int)
    ensures Measure(Holdings([]), lo, hi) == 0
  {
    MeasureNone(Holdings([]), lo, hi);
  }

  lemma ShareBounds(covered: int, total: int)
    requires total > 0
    ensures covered as real / total as real * total as real == covered as real
    ensures 0 <= covered <= total ==> 0.0 <= covered as real / total as real <= 1.0
  {
  }

  // ----- trades of the engine -----

  lemma {:induction false} BarAtBounds(frames: seq<ReplayFrame>, ts: int, id: string)
    requires ValidFrames(frames) && BarAt(frames, ts, id).Some?
    ensures exists i :: 0 <= i < |frames| && frames[i].timestamp == ts
  {
    if frames[0].timestamp != ts {
      BarAtBounds(frames[1..], ts, id);
      var i :| 0 <= i < |frames[1..]| && frames[1..][i].timestamp == ts;
      assert frames[i + 1].timestamp == ts;
    }
  }

  /** Engine trades lie inside the replay, so their exposure is exact and never clamped. */
  lemma EngineTradesWellFormed(cfg: Config, frames: seq<ReplayFrame>)
    requires Input(cfg, frames)
    ensures var r := ReportOf(cfg, frames);
      WellFormed(Holdings(r.trades), r.startedAt, r.endedAt)
  {
    hide FinalBook, NetPnl, Story, PositionsInv, PendingInv, SignalsInv, Disjoint;
    var r := ReportOf(cfg, frames);
    FinalInv(cfg, frames);
    forall i | 0 <= i < |r.trades| ensures r.startedAt <= r.trades[i].entryTime <= r.trades[i].exitTime <= r.endedAt {
      TradeBounds(cfg, frames, r.trades[i], Story(FinalBook(cfg, frames).journal, r.trades[i].signal.signalId));
    }
  }

  lemma TradeBounds(cfg: Config, frames: seq<ReplayFrame>, t: Trade, story: seq<JournalEntry>)
    requires Input(cfg, frames) && TradeInv(cfg, frames, t, story)
    ensures frames[0].timestamp <= t.entryTime <= t.exitTime
  {
    hide Amount, OrderCosts, BarAt, FlowsOf, FirstTrigger, TradeTallied;
    BarAtBounds(frames, t.entryTime, t.signal.instrumentId);
    var i :| 0 <= i < |frames| && frames[i].timestamp == t.entryTime;
    if i > 0 { FramesOrdered(frames, 0, i); }
  }

  // ----- breakdowns -----

  function WithLabel(trades: seq<Trade>, selector: Trade -> string, l: string): seq<Trade> {
    if trades == [] then []
    else WithLabel(trades[..|trades| - 1], selector, l)
         + (if selector(trades[|trades| - 1]) == l then [trades[|trades| - 1]] else [])
  }

  /** A label's group is the trades that carry it, in the order of the input. */
  lemma {:induction false} LabelledTrades(trades: seq<Trade>, selector: Trade -> string, l: string) returns (at: seq<nat>)
    ensures forall k :: 0 <= k < |at| ==> at[k] < |trades|
    ensures forall k, m :: 0 <= k < m < |at| ==> at[k] < at[m]
    ensures forall i :: 0 <= i < |trades| ==> (i in at <==> selector(trades[i]) == l)
    ensures WithLabel(trades, selector, l) == seq(|at|, k requires 0 <= k < |at| => trades[at[k]])
  {
    at := [];
    if trades != [] {
      var n: nat := |trades| - 1;
      var before := LabelledTrades(trades[..n], selector, l);
      at := before + if selector(trades[n]) == l then [n] else [];
      assert forall k :: 0 <= k < |before| ==> before[k] < n;
      assert forall i :: i in at <==> i in before || (i == n && selector(trades[n]) == l);
      assert forall i :: 0 <= i < n ==> trades[..n][i] == trades[i];
    }
  }

  ghost predicate Grouped(trades: seq<Trade>, selector: Trade -> string, labels: seq<string>, groups: map<string, seq<Trade>>) {
    && (forall i, k :: 0 <= i < k < |labels| ==> labels[i] != labels[k])
    && (forall l :: l in groups <==> l in labels)
    && (forall l :: l in labels ==> groups[l] == WithLabel(trades, selector, l))
    && (forall i :: 0 <= i < |trades| ==> selector(trades[i]) in labels)
    && (forall l :: l in labels ==> Occurs(trades, selector, l))
  }

  ghost predicate Occurs(trades: seq<Trade>, selector: Trade -> string, l: string) {
    exists i :: 0 <= i < |trades| && selector(trades[i]) == l
  }

  /** Groups trades by one dimension: each label that occurs, once, with exactly its trades in order. */
  method GroupTrades(trades: seq<Trade>, selector: Trade -> string)
    returns (labels: seq<string>, groups: map<string, seq<Trade>>)
    ensures Grouped(trades, selector, labels, groups)
  {
    labels, groups := [], map[];
    for i := 0 to |trades|
      invariant Grouped(trades[..i], selector, labels, groups)
    {
      var t := trades[i];
      assert trades[..i + 1] == trades[..i] + [t];
      GroupOne(trades[..i], t, selector, labels, groups);
      if selector(t) !in groups {
        labels, groups := labels + [selector(t)], groups[selector(t) := []];
      }
      groups := groups[selector(t) := groups[selector(t)] + [t]];
    }
    assert trades[..|trades|] == trades;
  }

  lemma LabelOne(trades: seq<Trade>, t: Trade, selector: Trade -> string, l: string)
    ensures WithLabel(trades + [t], selector, l) == WithLabel(trades, selector, l) + (if selector(t) == l then [t] else [])
  {
    assert (trades + [t])[..|trades|] == trades;
  }

  lemma GroupOne(trades: seq<Trade>, t: Trade, selector: Trade -> string, labels: seq<string>, groups: map<string, seq<Trade>>)
    requires Grouped(trades, selector, labels, groups)
    ensures var l := selector(t);
      if l in groups then Grouped(trades + [t], selector, labels, groups[l := groups[l] + [t]])
      else Grouped(trades + [t], selector, labels + [l], groups[l := [] + [t]])
  {
    hide WithLabel;
    var l := selector(t);
    forall x ensures WithLabel(trades + [t], selector, x) == WithLabel(trades, selector, x) + (if l == x then [t] else []) {
      LabelOne(trades, t, selector, x);
    }
    if l !in groups { NoneLabelled(trades, selector, l); }
    forall x | x in labels || x == l ensures Occurs(trades + [t], selector, x) { StillOccurs(trades, t, selector, x); }
    assert forall x :: x in labels + [l] <==> x in labels || x == l;
  }

  lemma StillOccurs(trades: seq<Trade>, t: Trade, selector: Trade -> string, l: string)
    requires Occurs(trades, selector, l) || selector(t) == l
    ensures Occurs(trades + [t], selector, l)
  {
    if Occurs(trades, selector, l) {
      var i :| 0 <= i < |trades| && selector(trades[i]) == l;
      assert (trades + [t])[i] == trades[i];
    } else {
      assert (trades + [t])[|trades|] == t;
    }
  }

  lemma {:induction false} NoneLabelled(trades: seq<Trade>, selector: Trade -> string, l: string)
    requires forall i :: 0 <= i < |trades| ==> selector(trades[i]) != l
    ensures WithLabel(trades, selector, l) == []
  {
    if trades != [] { NoneLabelled(trades[..|trades| - 1], selector, l); }
  }

  ghost function GroupsNet(trades: seq<Trade>, selector: Trade -> string, labels: seq<string>): real {
    if labels == [] then 0.0
    else GroupsNet(trades, selector, labels[..|labels| - 1]) + NetPnl(WithLabel(trades, selector, labels[|labels| - 1]))
  }

  lemma NetOne(trades: seq<Trade>, t: Trade)
    ensures NetPnl(trades + [t]) == NetPnl(trades) + t.netPnl
  {
    assert (trades + [t])[..|trades|] == trades;
  }

  lemma {:induction false} GroupsNetStep(trades: seq<Trade>, selector: Trade -> string, labels: seq<string>)
    requires trades != [] && forall i, k :: 0 <= i < k < |labels| ==> labels[i] != labels[k]
    ensures var t := trades[|trades| - 1];
      GroupsNet(trades, selector, labels) == GroupsNet(trades[..|trades| - 1], selector, labels)
                                          + (if selector(t) in labels then t.netPnl else 0.0)
  {
    hide WithLabel, NetPnl;
    if labels != [] {
      var n, m := |labels| - 1, |trades| - 1;
      var l, t := labels[n], trades[m];
      GroupsNetStep(trades, selector, labels[..n]);
      assert selector(t) in labels <==> selector(t) in labels[..n] || selector(t) == l by { assert labels == labels[..n] + [l]; }
      var before := WithLabel(trades[..m], selector, l);
      assert trades == trades[..m] + [t];
      LabelOne(trades[..m], t, selector, l);
      if selector(t) == l { NetOne(before, t); } else { assert before + [] == before; }
    }
  }

  lemma {:induction false} NoGroups(selector: Trade -> string, labels: seq<string>)
    ensures GroupsNet([], selector, labels) == 0.0
  {
    if labels != [] { NoGroups(selector, labels[..|labels| - 1]); }
  }

  /** Grouping conserves the result: the groups' net results add up to the total. */
  lemma {:induction false} BreakdownConserves(trades: seq<Trade>, selector: Trade -> string, labels: seq<string>)
    requires forall i, k :: 0 <= i < k < |labels| ==> labels[i] != labels[k]
    requires forall i :: 0 <= i < |trades| ==> selector(trades[i]) in labels
    ensures GroupsNet(trades, selector, labels) == NetPnl(trades)
  {
    if trades == [] {
      NoGroups(selector, labels);
    } else {
      GroupsNetStep(trades, selector, labels);
      BreakdownConserves(trades[..|trades| - 1], selector, labels);
    }
  }

  // ----- one dimension of the report -----

  datatype Breakdown = Breakdown(
    trades: nat, wins: nat, winRate: real, grossPnl: real, netPnl: real, expectancy: real, averageR: real)

  function Wins(trades: seq<Trade>): nat {
    if trades == [] then 0 else Wins(trades[..|trades| - 1]) + if trades[|trades| - 1].netPnl > 0.0 then 1 else 0
  }

  function GrossPnl(trades: seq<Trade>): real {
    if trades == [] then 0.0 else GrossPnl(trades[..|trades| - 1]) + trades[|trades| - 1].grossPnl
  }

  function Multiples(trades: seq<Trade>): real {
    if trades == [] then 0.0 else Multiples(trades[..|trades| - 1]) + trades[|trades| - 1].rMultiple
  }

  /** An average, nothing for no trades; times the count it is the sum. */
  function Mean(sum: real, count: nat): real {
    if count == 0 then 0.0 else sum / (count as real)
  }

  lemma MeanTimesCount(sum: real, count: nat)
    requires count == 0 ==> sum == 0.0
    ensures Mean(sum, count) * (count as real) == sum
    ensures 0.0 <= sum <= count as real ==> 0.0 <= Mean(sum, count) <= 1.0
    ensures count == 0 ==> Mean(sum, count) == 0.0
  {
    if count > 0 && 0.0 <= sum <= count as real { assert sum / (count as real) <= (count as real) / (count as real); }
  }

  ghost predicate Summarizes(r: Breakdown, group: seq<Trade>) {
    && r.trades == |group| && r.wins == Wins(group) && r.grossPnl == GrossPnl(group) && r.netPnl == NetPnl(group)
    && r.winRate == Mean(r.wins as real, r.trades) && r.expectancy == Mean(r.netPnl, r.trades)
    && r.averageR == Mean(Multiples(group), r.trades)
  }

  lemma {:induction false} WinsBound(trades: seq<Trade>)
    ensures Wins(trades) <= |trades|
  {
    if trades != [] { WinsBound(trades[..|trades| - 1]); }
  }

  /** The sum of one figure over trades. */
  ghost function Total(trades: seq<Trade>, figure: Trade -> real): real {
    if trades == [] then 0.0 else figure(trades[0]) + Total(trades[1..], figure)
  }

  ghost function Winners(trades: seq<Trade>): set<int> {
    set i | 0 <= i < |trades| && trades[i].netPnl > 0.0
  }

  lemma {:induction false} TotalLast(trades: seq<Trade>, t: Trade, figure: Trade -> real)
    ensures Total(trades + [t], figure) == Total(trades, figure) + figure(t)
  {
    if trades == [] {
      assert [] + [t] == [t] && [t][1..] == [];
    } else {
      TotalLast(trades[1..], t, figure);
      assert (trades + [t])[1..] == trades[1..] + [t];
    }
  }

  lemma {:induction false} Totals(trades: seq<Trade>)
    ensures NetPnl(trades) == Total(trades, (t: Trade) => t.netPnl)
    ensures GrossPnl(trades) == Total(trades, (t: Trade) => t.grossPnl)
    ensures Multiples(trades) == Total(trades, (t: Trade) => t.rMultiple)
  {
    if trades != [] {
      var n := |trades| - 1;
      Totals(trades[..n]);
      assert trades == trades[..n] + [trades[n]];
      TotalLast(trades[..n], trades[n], (t: Trade) => t.netPnl);
      TotalLast(trades[..n], trades[n], (t: Trade) => t.grossPnl);
      TotalLast(trades[..n], trades[n], (t: Trade) => t.rMultiple);
    }
  }

  lemma {:induction false} WinsCounted(trades: seq<Trade>)
    ensures Wins(trades) == |Winners(trades)|
  {
    if trades != [] {
      var n := |trades| - 1;
      WinsCounted(trades[..n]);
      assert Winners(trades) == Winners(trades[..n]) + if trades[n].netPnl > 0.0 then {n} else {};
    }
  }

  /** What a summary says of its group: how many trades and winners there are, the sums of the
      results, and the rates, which times the count give the sums back and are zero for no trades. */
  lemma SummaryMeans(r: Breakdown, group: seq<Trade>)
    requires Summarizes(r, group)
    ensures r.trades == |group| && r.wins == |Winners(group)|
    ensures r.grossPnl == Total(group, (t: Trade) => t.grossPnl) && r.netPnl == Total(group, (t: Trade) => t.netPnl)
    ensures r.winRate * (|group| as real) == |Winners(group)| as real && 0.0 <= r.winRate <= 1.0
    ensures r.expectancy * (|group| as real) == Total(group, (t: Trade) => t.netPnl)
    ensures r.averageR * (|group| as real) == Total(group, (t: Trade) => t.rMultiple)
    ensures group == [] ==> r.winRate == r.expectancy == r.averageR == 0.0
  {
    hide Mean, Wins, Multiples, NetPnl, GrossPnl, Winners;
    WinsBound(group);
    WinsCounted(group);
    Totals(group);
    MeanTimesCount(r.wins as real, |group|);
    MeanTimesCount(r.netPnl, |group|);
    MeanTimesCount(Multiples(group), |group|);
  }

  method TradeBreakdown(trades: seq<Trade>) returns (r: Breakdown)
    ensures Summarizes(r, trades)
  {
    hide Mean;
    var wins, gross, net, multiples := 0, 0.0, 0.0, 0.0;
    for i := 0 to |trades|
      invariant wins == Wins(trades[..i]) && gross == GrossPnl(trades[..i]) && net == NetPnl(trades[..i])
      invariant multiples == Multiples(trades[..i])
    {
      assert trades[..i + 1][..i] == trades[..i];
      if trades[i].netPnl > 0.0 { wins := wins + 1; }
      gross, net, multiples := gross + trades[i].grossPnl, net + trades[i].netPnl, multiples + trades[i].rMultiple;
    }
    assert trades[..|trades|] == trades;
    var count := |trades|;
    r := Breakdown(count, wins, Mean(wins as real, count), gross, net, Mean(net, count), Mean(multiples, count));
  }

  lemma LabelOrder()
    ensures TotalPreorder(StringLeq)
  {
    forall a, b ensures StringLeq(a, b) || StringLeq(b, a) { StringLeqTotal(a, b); }
    forall a, b, c | StringLeq(a, b) && StringLeq(b, c) ensures StringLeq(a, c) { StringLeqTransitive(a, b, c); }
  }

  /** The same labels in order. */
  lemma SortedLabels(labels: seq<string>)
    ensures var sorted := Sort(StringLeq, labels);
      && SortedBy(StringLeq, sorted) && |sorted| == |labels| && (forall l :: l in sorted <==> l in labels)
      && ((forall i, k :: 0 <= i < k < |labels| ==> labels[i] != labels[k]) ==>
           forall i, k :: 0 <= i < k < |sorted| ==> sorted[i] != sorted[k])
  {
    hide StringLeq;
    LabelOrder();
    SortCorrect(StringLeq, labels);
    var sorted := Sort(StringLeq, labels);
    forall l ensures l in sorted <==> l in labels {
      assert l in sorted <==> l in multiset(sorted);
      assert l in labels <==> l in multiset(labels);
    }
    if forall i, k :: 0 <= i < k < |labels| ==> labels[i] != labels[k] {
      DistinctCounts(labels);
      CountsDistinct(sorted);
    }
  }

  lemma {:induction false} DistinctCounts(s: seq<string>)
    requires forall i, k :: 0 <= i < k < |s| ==> s[i] != s[k]
    ensures forall l :: multiset(s)[l] <= 1
  {
    if s != [] {
      var n := |s| - 1;
      DistinctCounts(s[..n]);
      assert s == s[..n] + [s[n]];
      assert s[n] !in multiset(s[..n]);
    }
  }

  lemma CountsDistinct(s: seq<string>)
    requires forall l :: multiset(s)[l] <= 1
    ensures forall i, k :: 0 <= i < k < |s| ==> s[i] != s[k]
  {
    forall i, k | 0 <= i < k < |s| ensures s[i] != s[k] {
      assert s == s[..k] + [s[k]] + s[k + 1..];
      assert s[..k][i] == s[i];
      assert s[i] in multiset(s[..k]);
      assert multiset(s) == multiset(s[..k]) + multiset{s[k]} + multiset(s[k + 1..]);
      assert multiset(s)[s[k]] >= multiset(s[..k])[s[k]] + 1;
    }
  }

  ghost function RowsNet(rows: seq<(string, Breakdown)>): real {
    if rows == [] then 0.0 else RowsNet(rows[..|rows| - 1]) + rows[|rows| - 1].1.netPnl
  }

  ghost predicate RowsFor(trades: seq<Trade>, selector: Trade -> string, labels: seq<string>, rows: seq<(string, Breakdown)>) {
    && |rows| == |labels|
    && (forall i :: 0 <= i < |rows| ==> rows[i].0 == labels[i] && Summarizes(rows[i].1, WithLabel(trades, selector, rows[i].0)))
    && RowsNet(rows) == GroupsNet(trades, selector, labels)
  }

  lemma RowAdded(trades: seq<Trade>, selector: Trade -> string, labels: seq<string>, rows: seq<(string, Breakdown)>, l: string, r: Breakdown)
    requires RowsFor(trades, selector, labels, rows) && Summarizes(r, WithLabel(trades, selector, l))
    ensures RowsFor(trades, selector, labels + [l], rows + [(l, r)])
  {
    hide WithLabel, NetPnl, Wins, GrossPnl, Multiples, Mean;
    assert (rows + [(l, r)])[..|rows|] == rows && (labels + [l])[..|labels|] == labels;
  }

  lemma NoRows(trades: seq<Trade>, selector: Trade -> string)
    ensures RowsFor(trades, selector, [], [])
  {
  }

  /** The breakdown by one dimension: a row for every label that occurs, in label order, each the
      summary of exactly the trades with that label; together the rows hold the whole result. */
  method BuildBreakdown(trades: seq<Trade>, selector: Trade -> string) returns (rows: seq<(string, Breakdown)>)
    ensures forall i, k :: 0 <= i < k < |rows| ==> StringLeq(rows[i].0, rows[k].0) && rows[i].0 != rows[k].0
    ensures forall i :: 0 <= i < |rows| ==> Summarizes(rows[i].1, WithLabel(trades, selector, rows[i].0))
    ensures forall t :: t in trades ==> exists i :: 0 <= i < |rows| && rows[i].0 == selector(t)
    ensures forall i :: 0 <= i < |rows| ==> Occurs(trades, selector, rows[i].0)
    ensures RowsNet(rows) == NetPnl(trades)
  {
    hide StringLeq, Summarizes, NetPnl, WithLabel, RowsFor, Sort, Occurs;
    var labels, groups := GroupTrades(trades, selector);
    SortedLabels(labels);
    var sorted := Sort(StringLeq, labels);
    rows := [];
    NoRows(trades, selector);
    assert sorted[..0] == [];
    for i := 0 to |sorted|
      invariant RowsFor(trades, selector, sorted[..i], rows)
    {
      var row := TradeBreakdown(groups[sorted[i]]);
      RowAdded(trades, selector, sorted[..i], rows, sorted[i], row);
      assert sorted[..i + 1] == sorted[..i] + [sorted[i]];
      rows := rows + [(sorted[i], row)];
    }
    assert sorted[..|sorted|] == sorted;
    RowsMeaning(trades, selector, sorted, rows);
  }

  lemma RowsMeaning(trades: seq<Trade>, selector: Trade -> string, labels: seq<string>, rows: seq<(string, Breakdown)>)
    requires RowsFor(trades, selector, labels, rows) && SortedBy(StringLeq, labels)
    requires forall i, k :: 0 <= i < k < |labels| ==> labels[i] != labels[k]
    requires forall i :: 0 <= i < |trades| ==> selector(trades[i]) in labels
    requires forall l :: l in labels ==> Occurs(trades, selector, l)
    ensures forall i :: 0 <= i < |rows| ==> Occurs(trades, selector, rows[i].0)
    ensures forall i, k :: 0 <= i < k < |rows| ==> StringLeq(rows[i].0, rows[k].0) && rows[i].0 != rows[k].0
    ensures forall i :: 0 <= i < |rows| ==> Summarizes(rows[i].1, WithLabel(trades, selector, rows[i].0))
    ensures forall t :: t in trades ==> exists i :: 0 <= i < |rows| && rows[i].0 == selector(t)
    ensures RowsNet(rows) == NetPnl(trades)
  {
    hide StringLeq, Summarizes, NetPnl, WithLabel, RowsNet, GroupsNet, Occurs;
    BreakdownConserves(trades, selector, labels);
    forall t | t in trades ensures exists i :: 0 <= i < |rows| && rows[i].0 == selector(t) {
      var i :| 0 <= i < |labels| && labels[i] == selector(t);
      assert rows[i].0 == selector(t);
    }
  }
}
