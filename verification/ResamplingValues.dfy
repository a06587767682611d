/** A reference for resampling that reads only the closed candles: which inputs are accepted, and
    exactly which candles come out. It mentions none of the bucketing or aggregating functions. */
module ResamplingValues {
  import opened Ordering
  import opened Outcomes
  import opened Resampling
  import opened ResamplingLaws

  /** `s` is the closed candles of the input, one after the other. */
  ghost predicate Arranged(candles: seq<Candle>, asOf: int, s: seq<Candle>) {
    && (forall x :: multiset(s)[x] == if x.completed && x.end <= asOf then multiset(candles)[x] else 0)
    && (forall i :: 0 < i < |s| ==> s[i - 1].end <= s[i].start)
  }

  /** The given instant, or the midnight before the earliest candle. */
  ghost function Anchor(s: seq<Candle>, anchor: Option<int>, midnight: Candle -> int): int
    requires s != []
  {
    match anchor
    case Some(instant) => instant
    case None => midnight(s[0])
  }

  ghost predicate InsideBucket(c: Candle, a: int, w: int)
    requires w > 0
  {
    (c.start - a) % w + (c.end - c.start) <= w
  }

  /** The volume of a run of candles. */
  ghost function Traded(s: seq<Candle>): real {
    if s == [] then 0.0 else Traded(s[..|s| - 1]) + s[|s| - 1].volume
  }

  /** Candles `i` up to `j` of `s` fill one bucket without a gap, and `c` is what they make together. */
  ghost predicate Bar(s: seq<Candle>, a: int, w: int, i: int, j: int, c: Candle)
    requires w > 0
  {
    && 0 <= i < j <= |s|
    && (c.start - a) % w == 0 && c.end == c.start + w && s[i].start == c.start && s[j - 1].end == c.end
    && (forall k :: i < k < j ==> s[k - 1].end == s[k].start)
    && c.open == s[i].open && c.close == s[j - 1].close && c.completed
    && (forall k :: i <= k < j ==> c.low <= s[k].low && s[k].high <= c.high)
    && (exists k :: i <= k < j && s[k].high == c.high) && (exists k :: i <= k < j && s[k].low == c.low)
    && c.volume == Traded(s[i..j])
  }

  ghost predicate IsBar(s: seq<Candle>, a: int, w: int, c: Candle)
    requires w > 0
  {
    exists i, j :: Bar(s, a, w, i, j, c)
  }

  ghost predicate Rising(s: seq<Candle>) {
    forall i, k :: 0 <= i < k < |s| ==> s[i].start < s[k].start
  }

  // ----- the selection -----

  /** There is at most one such arrangement, and it is the selection. */
  lemma ArrangedSelected(candles: seq<Candle>, asOf: int, s: seq<Candle>)
    requires AllValid(candles) && Arranged(candles, asOf, s)
    ensures Selected(candles, asOf) == s && NonOverlapping(s) && AllValid(s)
    ensures forall i :: 0 <= i < |s| ==> s[i].completed && s[i].end <= asOf
  {
    hide Selected, Closed, SortedBy, NoTies, TotalPreorder;
    forall i | 0 <= i < |s| ensures s[i].Valid() && s[i].completed && s[i].end <= asOf {
      assert s[i] in multiset(s);
      assert s[i] in multiset(candles);
      assert s[i] in candles;
    }
    SelectedElements(candles, asOf);
    forall x ensures multiset(Selected(candles, asOf))[x] == multiset(s)[x] { ClosedCount(candles, asOf, x); }
    SpacedNoTies(s);
    CandleOrder();
    SortedUnique(CandleLeq, s, Selected(candles, asOf));
  }

  lemma SelectedArranged(candles: seq<Candle>, asOf: int)
    requires AllValid(candles) && NonOverlapping(Selected(candles, asOf))
    ensures Arranged(candles, asOf, Selected(candles, asOf))
  {
    hide Selected, Closed, SortedBy;
    SelectedElements(candles, asOf);
    forall x ensures multiset(Selected(candles, asOf))[x] == if x.completed && x.end <= asOf then multiset(candles)[x] else 0 {
      ClosedCount(candles, asOf, x);
    }
  }

  lemma FitsInside(g: Grid, c: Candle)
    requires g.width > 0
    ensures g.Fits(c) <==> InsideBucket(c, g.anchor, g.width)
  {
    var p, w := c.start - g.anchor, g.width;
    assert p == (p / w) * w + p % w;
    assert (p / w + 1) * w == (p / w) * w + w;
  }

  /** Resampling accepts exactly closed candles that can be put one after the other, each inside one
      bucket; otherwise it says which of the two fails, after checking the interval. */
  lemma Accepted(candles: seq<Candle>, interval: int, asOf: int, anchor: Option<int>, midnight: Candle -> int)
    requires AllValid(candles)
    ensures var r := Resample(candles, interval, asOf, anchor, midnight);
      && (interval <= 0 ==> r == Err("resampling interval must be positive"))
      && (interval > 0 ==>
            (r == Err("completed candles overlap") <==> forall s :: !Arranged(candles, asOf, s)))
      && (interval > 0 ==> forall s :: Arranged(candles, asOf, s) ==>
            if forall i :: 0 <= i < |s| ==> InsideBucket(s[i], Anchor(s, anchor, midnight), interval) then r.Ok?
            else r == Err("source candle crosses a resampling bucket boundary"))
  {
    hide Selected, Arranged, InsideBucket, Grid.Fits, CollectSpan;
    var r := Resample(candles, interval, asOf, anchor, midnight);
    if interval > 0 {
      forall s | Arranged(candles, asOf, s)
        ensures r != Err("completed candles overlap")
        ensures if forall i :: 0 <= i < |s| ==> InsideBucket(s[i], Anchor(s, anchor, midnight), interval) then r.Ok?
                else r == Err("source candle crosses a resampling bucket boundary")
      {
        ArrangedSelected(candles, asOf, s);
        if s != [] {
          var g := Grid(Anchor(s, anchor, midnight), interval);
          forall i | 0 <= i < |s| ensures g.Fits(s[i]) <==> InsideBucket(s[i], g.anchor, interval) { FitsInside(g, s[i]); }
        }
      }
      if NonOverlapping(Selected(candles, asOf)) { SelectedArranged(candles, asOf); }
    }
  }

  // ----- one bucket -----

  lemma {:induction false} VolumeTraded(s: seq<Candle>)
    ensures Volume(s) == Traded(s)
  {
    if s != [] {
      var n := |s| - 1;
      VolumeTraded(s[..n]);
      VolumeConcat(s[..n], [s[n]]);
      assert s == s[..n] + [s[n]];
    }
  }

  lemma {:induction false} Extremes(s: seq<Candle>)
    requires s != []
    ensures forall k :: 0 <= k < |s| ==> Low(s) <= s[k].low && s[k].high <= High(s)
    ensures exists k :: 0 <= k < |s| && s[k].high == High(s)
    ensures exists k :: 0 <= k < |s| && s[k].low == Low(s)
  {
    if |s| > 1 {
      Extremes(s[1..]);
      assert forall k :: 0 <= k < |s| ==> s[k] == if k == 0 then s[0] else s[1..][k - 1];
      if High(s) == s[0].high { assert s[0].high == High(s); } else {
        var k :| 0 <= k < |s[1..]| && s[1..][k].high == High(s[1..]);
        assert s[k + 1].high == High(s);
      }
      if Low(s) == s[0].low { assert s[0].low == Low(s); } else {
        var k :| 0 <= k < |s[1..]| && s[1..][k].low == Low(s[1..]);
        assert s[k + 1].low == Low(s);
      }
    } else {
      assert s[0].high == High(s) && s[0].low == Low(s);
    }
  }

  /** Candles of one bucket are neighbours. */
  lemma {:induction false} GroupSlice(g: Grid, s: seq<Candle>, b: int) returns (i: nat, j: nat)
    requires g.width > 0 && AllValid(s) && NonOverlapping(s)
    ensures i <= j <= |s| && Group(g, s, b) == s[i..j]
    ensures forall k :: 0 <= k < |s| ==> (i <= k < j <==> g.Index(s[k]) == b)
  {
    hide Grid.Edge, Grid.Index, Candle.Valid;
    if s == [] {
      i, j := 0, 0;
    } else {
      var n := |s| - 1;
      var rest := s[..n];
      i, j := GroupSlice(g, rest, b);
      assert s == rest + [s[n]];
      GroupAppend(g, rest, s[n], b);
      assert forall k :: 0 <= k < n ==> rest[k] == s[k];
      if g.Index(s[n]) == b {
        if i == j { i, j := n, n; }
        if j < n {
          Between(g, s, j - 1, j, n);
        }
        j := n + 1;
        assert s[i..j] == rest[i..n] + [s[n]];
      } else {
        assert s[i..j] == rest[i..j];
      }
    }
  }

  lemma Between(g: Grid, s: seq<Candle>, p: int, q: int, r: int)
    requires g.width > 0 && AllValid(s) && NonOverlapping(s) && 0 <= p < q < r < |s|
    ensures g.Index(s[p]) <= g.Index(s[q]) <= g.Index(s[r])
  {
    SpacedApart(s, p, q);
    SpacedApart(s, q, r);
    IndexMonotone(g, s[p], s[q]);
    IndexMonotone(g, s[q], s[r]);
  }

  lemma OnEdge(g: Grid, b: int)
    requires g.width > 0
    ensures (g.Edge(b) - g.anchor) % g.width == 0 && g.Edge(b + 1) == g.Edge(b) + g.width
  {
    assert b * g.width % g.width == 0 by { MultipleOf(b, g.width); }
    assert (b + 1) * g.width == b * g.width + g.width;
  }

  lemma MultipleOf(b: int, w: int)
    requires w > 0
    ensures b * w % w == 0 && b * w / w == b
  {
    var q, r := b * w / w, b * w % w;
    assert b * w == q * w + r;
    assert (b - q) * w == r;
    if b - q >= 1 { MulMonotone(1, b - q, w); }
    if b - q <= -1 { MulMonotone(b - q, -1, w); }
  }

  lemma SliceBar(g: Grid, s: seq<Candle>, b: int, i: nat, j: nat)
    requires g.width > 0 && i < j <= |s| && Covers(s[i..j], g.Edge(b), g.Edge(b + 1))
    ensures Bar(s, g.anchor, g.width, i, j, Aggregate(s[i..j], g.Edge(b), g.Edge(b + 1)))
  {
    hide Grid.Edge, High, Low, Volume, Traded;
    var run := s[i..j];
    OnEdge(g, b);
    Extremes(run);
    VolumeTraded(run);
    assert forall k :: i <= k < j ==> s[k] == run[k - i];
    var h :| 0 <= h < |run| && run[h].high == High(run);
    var l :| 0 <= l < |run| && run[l].low == Low(run);
    assert s[i + h].high == High(run) && s[i + l].low == Low(run);
    forall k | i < k < j ensures s[k - 1].end == s[k].start { assert run[k - i - 1].end == run[k - i].start; }
  }

  lemma SameBar(s: seq<Candle>, a: int, w: int, i: int, j: int, c: Candle, d: Candle)
    requires w > 0 && Bar(s, a, w, i, j, c) && Bar(s, a, w, i, j, d)
    ensures c == d
  {
    var k :| i <= k < j && s[k].high == c.high;
    var l :| i <= l < j && s[l].low == c.low;
    var m :| i <= m < j && s[m].high == d.high;
    var n :| i <= n < j && s[n].low == d.low;
  }

  /** What a bucket emits is the bar of its neighbours. */
  lemma EmittedBar(g: Grid, s: seq<Candle>, b: int, c: Candle)
    requires g.width > 0 && AllValid(s) && NonOverlapping(s) && c in Emit(g, s, b)
    ensures IsBar(s, g.anchor, g.width, c) && c.start == g.Edge(b) && c.end == c.start + g.width
  {
    hide Grid.Edge, Grid.Index, Aggregate, Covers, Group, Bar;
    OnEdge(g, b);
    var i, j := GroupSlice(g, s, b);
    CoveredRun(s[i..j], g.Edge(b), g.Edge(b + 1));
    SliceBar(g, s, b, i, j);
    assert c == Aggregate(s[i..j], g.Edge(b), g.Edge(b + 1));
    BarEnds(s, g.anchor, g.width, i, j, c);
    assert c.start == g.Edge(b) by { AggregateStart(s[i..j], g.Edge(b), g.Edge(b + 1)); }
  }

  lemma AggregateStart(run: seq<Candle>, a: int, e: int)
    requires run != []
    ensures Aggregate(run, a, e).start == a
  {
  }

  lemma CoveredRun(run: seq<Candle>, a: int, e: int)
    requires Covers(run, a, e)
    ensures run != []
  {
  }

  lemma BarEnds(s: seq<Candle>, a: int, w: int, i: int, j: int, c: Candle)
    requires w > 0 && Bar(s, a, w, i, j, c)
    ensures 0 <= i < j <= |s| && c.end == c.start + w && (c.start - a) % w == 0
    ensures s[i].start == c.start && s[j - 1].end == c.end
  {
  }

  /** A bar's candles are all the candles of its bucket. */
  lemma BarGroup(g: Grid, s: seq<Candle>, i: int, j: int, c: Candle, b: int)
    requires g.width > 0 && AllValid(s) && NonOverlapping(s)
    requires Bar(s, g.anchor, g.width, i, j, c) && g.Edge(b) == c.start
    ensures forall k :: 0 <= k < |s| ==> (i <= k < j <==> g.Index(s[k]) == b)
  {
    hide Grid.Edge, Grid.Index, Bar;
    BarEnds(s, g.anchor, g.width, i, j, c);
    OnEdge(g, b);
    forall k | 0 <= k < |s| ensures i <= k < j <==> g.Index(s[k]) == b {
      if i < k { SpacedApart(s, i, k); }
      if k < j - 1 { SpacedApart(s, k, j - 1); }
      if k < i { SpacedApart(s, k, i); }
      if k >= j { SpacedApart(s, j - 1, k); }
      IndexBounds(g, s[k]);
      if i <= k < j { EdgeIndex(g, s[k], b); }
    }
  }

  lemma BarEmitted(g: Grid, s: seq<Candle>, i: int, j: int, c: Candle) returns (b: int)
    requires g.width > 0 && AllValid(s) && NonOverlapping(s) && Bar(s, g.anchor, g.width, i, j, c)
    ensures 0 <= i < |s| && b == g.Index(s[i]) && Emit(g, s, b) == [c]
  {
    hide Grid.Edge, Grid.Index, Aggregate, Group, Bar;
    BarEnds(s, g.anchor, g.width, i, j, c);
    b := BarBucket(g, c);
    BarGroup(g, s, i, j, c, b);
    var p, q := GroupSlice(g, s, b);
    assert p == i && q == j by {
      assert g.Index(s[i]) == b && g.Index(s[j - 1]) == b;
      assert p <= i < q;
      assert g.Index(s[p]) == b && g.Index(s[q - 1]) == b;
    }
    BarCovers(g, s, i, j, c, b);
    SliceBar(g, s, b, i, j);
    SameBar(s, g.anchor, g.width, i, j, c, Aggregate(s[i..j], g.Edge(b), g.Edge(b + 1)));
  }

  lemma BarBucket(g: Grid, c: Candle) returns (b: int)
    requires g.width > 0 && (c.start - g.anchor) % g.width == 0
    ensures g.Edge(b) == c.start
  {
    b := (c.start - g.anchor) / g.width;
    assert c.start - g.anchor == b * g.width + (c.start - g.anchor) % g.width;
  }

  lemma BarCovers(g: Grid, s: seq<Candle>, i: int, j: int, c: Candle, b: int)
    requires g.width > 0 && Bar(s, g.anchor, g.width, i, j, c) && g.Edge(b) == c.start
    ensures 0 <= i < j <= |s| && Covers(s[i..j], g.Edge(b), g.Edge(b + 1))
  {
    hide Grid.Edge, Traded;
    OnEdge(g, b);
    var run := s[i..j];
    assert run[0] == s[i] && run[|run| - 1] == s[j - 1];
    forall k | 0 < k < |run| ensures run[k - 1].end == run[k].start {
      assert s[i + k - 1].end == s[i + k].start;
    }
  }

  // ----- the whole result -----

  lemma {:induction false} CollectMember(g: Grid, s: seq<Candle>, lo: int, hi: int, c: Candle)
    requires g.width > 0
    ensures c in Collect(g, s, lo, hi) <==> exists b :: lo <= b < hi && c in Emit(g, s, b)
    decreases hi - lo
  {
    hide Grid.Edge, Grid.Index, Emit;
    if lo < hi { CollectMember(g, s, lo, hi - 1, c); }
  }

  lemma {:induction false} CollectRising(g: Grid, s: seq<Candle>, lo: int, hi: int)
    requires g.width > 0 && AllValid(s) && NonOverlapping(s) && lo <= hi
    ensures Rising(Collect(g, s, lo, hi))
    ensures forall c :: c in Collect(g, s, lo, hi) ==> c.start < g.Edge(hi)
    decreases hi - lo
  {
    hide Grid.Edge, Grid.Index, Emit, IsBar;
    if lo < hi {
      CollectRising(g, s, lo, hi - 1);
      EdgeMonotone(g, hi - 1, hi);
      EmitLength(g, s, hi - 1);
      var last := Emit(g, s, hi - 1);
      if last != [] { EmittedBar(g, s, hi - 1, last[0]); }
    }
  }

  /** The result is exactly the bars of the arranged candles, in time order. */
  lemma SpanBars(g: Grid, s: seq<Candle>)
    requires g.width > 0 && AllValid(s) && NonOverlapping(s)
    ensures Rising(CollectSpan(g, s))
    ensures forall c :: c in CollectSpan(g, s) <==> IsBar(s, g.anchor, g.width, c)
  {
    hide Grid.Edge, Grid.Index, Emit, Collect, Bar, Rising;
    if s == [] {
      NoBars(g.anchor, g.width);
    } else {
      SpanBounds(g, s);
      var lo, hi := g.Index(s[0]), g.Index(s[|s| - 1]) + 1;
      assert lo <= g.Index(s[0]) < hi;
      CollectRising(g, s, lo, hi);
      forall c ensures c in CollectSpan(g, s) <==> IsBar(s, g.anchor, g.width, c) {
        CollectMember(g, s, lo, hi, c);
        if b :| lo <= b < hi && c in Emit(g, s, b) { EmittedBar(g, s, b, c); }
        if i, j :| Bar(s, g.anchor, g.width, i, j, c) {
          var b := BarEmitted(g, s, i, j, c);
          assert lo <= b < hi && c in Emit(g, s, b);
        }
      }
    }
  }

  lemma NoBars(a: int, w: int)
    requires w > 0
    ensures Rising([]) && forall c :: !IsBar([], a, w, c)
  {
  }

  /** Resampling emits, in time order, exactly one candle for every bucket that closed candles fill
      without a gap: their first open, last close, extremes and whole volume. */
  lemma ResampleMeaning(candles: seq<Candle>, interval: int, asOf: int, anchor: Option<int>, midnight: Candle -> int, s: seq<Candle>)
    requires AllValid(candles) && Arranged(candles, asOf, s) && Resample(candles, interval, asOf, anchor, midnight).Ok?
    ensures interval > 0
    ensures var r := Resample(candles, interval, asOf, anchor, midnight).value;
      && Rising(r) && (s == [] ==> r == [])
      && (s != [] ==> forall c :: c in r <==> IsBar(s, Anchor(s, anchor, midnight), interval, c))
  {
    hide Selected, CollectSpan, IsBar, Grid.Fits;
    ArrangedSelected(candles, asOf, s);
    if s != [] { SpanBars(Grid(Anchor(s, anchor, midnight), interval), s); }
  }

  // ----- identity and conservation -----

  lemma {:induction false} SameRising(r: seq<Candle>, s: seq<Candle>)
    requires Rising(r) && Rising(s) && forall c :: c in r <==> c in s
    ensures r == s
  {
    BothEmpty(r, s);
    if r != [] {
      assert r[0] in s && s[0] in r;
      assert r[0] == s[0];
      assert r == [r[0]] + r[1..] && s == [s[0]] + s[1..];
      forall c ensures c in r[1..] <==> c in s[1..] {
        assert c in r <==> c == r[0] || c in r[1..];
        assert c in s <==> c == s[0] || c in s[1..];
        if c in r[1..] { assert c.start > r[0].start; }
        if c in s[1..] { assert c.start > s[0].start; }
      }
      SameRising(r[1..], s[1..]);
    }
  }

  lemma BothEmpty(r: seq<Candle>, s: seq<Candle>)
    requires forall c :: c in r <==> c in s
    ensures r == [] <==> s == []
  {
    if r != [] { assert r[0] in r; }
    if s != [] { assert s[0] in s; }
  }

  lemma FillsInside(c: Candle, a: int, w: int)
    requires w > 0 && c.end == c.start + w && (c.start - a) % w == 0
    ensures InsideBucket(c, a, w)
  {
  }

  /** Closed candles that each fill a bucket come back unchanged. */
  lemma ResampleIdentity(candles: seq<Candle>, interval: int, asOf: int, anchor: Option<int>, midnight: Candle -> int, s: seq<Candle>)
    requires AllValid(candles) && Arranged(candles, asOf, s) && interval > 0
    requires forall i :: 0 <= i < |s| ==>
      s[i].end == s[i].start + interval && (s[i].start - Anchor(s, anchor, midnight)) % interval == 0
    ensures Resample(candles, interval, asOf, anchor, midnight) == Ok(s)
  {
    hide Selected, CollectSpan, Resample, InsideBucket, Arranged, IsBar, Anchor;
    if s != [] {
      forall i | 0 <= i < |s| ensures InsideBucket(s[i], Anchor(s, anchor, midnight), interval) {
        FillsInside(s[i], Anchor(s, anchor, midnight), interval);
      }
    }
    Accepted(candles, interval, asOf, anchor, midnight);
    ResampleMeaning(candles, interval, asOf, anchor, midnight, s);
    ArrangedSelected(candles, asOf, s);
    forall i, k | 0 <= i < k < |s| ensures s[i].start < s[k].start { SpacedApart(s, i, k); }
    if s != [] {
      var a := Anchor(s, anchor, midnight);
      forall c ensures IsBar(s, a, interval, c) <==> c in s { SingleBars(s, a, interval, c); }
      SameRising(Resample(candles, interval, asOf, anchor, midnight).value, s);
    }
  }

  lemma SingleBars(s: seq<Candle>, a: int, w: int, c: Candle)
    requires w > 0 && AllValid(s) && NonOverlapping(s)
    requires forall i :: 0 <= i < |s| ==> s[i].completed && s[i].end == s[i].start + w && (s[i].start - a) % w == 0
    ensures IsBar(s, a, w, c) <==> c in s
  {
    hide Bar;
    forall i | 0 <= i < |s| ensures Bar(s, a, w, i, i + 1, s[i]) { SingleBar(s, a, w, i); }
    if i, j :| Bar(s, a, w, i, j, c) {
      BarEnds(s, a, w, i, j, c);
      if i < j - 1 { SpacedApart(s, i, j - 1); }
      SameBar(s, a, w, i, j, c, s[i]);
    }
    if c in s {
      var i :| 0 <= i < |s| && s[i] == c;
      assert Bar(s, a, w, i, i + 1, c);
    }
  }

  lemma SingleBar(s: seq<Candle>, a: int, w: int, i: nat)
    requires w > 0 && i < |s| && s[i].completed && s[i].end == s[i].start + w && (s[i].start - a) % w == 0
    ensures Bar(s, a, w, i, i + 1, s[i])
  {
    assert s[i..i + 1] == [s[i]] && [s[i]][..0] == [];
    assert Traded([s[i]]) == Traded([]) + s[i].volume;
  }

  ghost predicate StartsIn(c: Candle, bars: seq<Candle>) {
    exists k :: 0 <= k < |bars| && bars[k].start <= c.start < bars[k].end
  }

  /** The volume of those candles of `s` that start during one of the bars. */
  ghost function TradedIn(s: seq<Candle>, bars: seq<Candle>): real {
    if s == [] then 0.0
    else TradedIn(s[..|s| - 1], bars) + if StartsIn(s[|s| - 1], bars) then s[|s| - 1].volume else 0.0
  }

  lemma {:induction false} TradedInAdd(s: seq<Candle>, bars: seq<Candle>, c: Candle)
    requires forall k :: 0 <= k < |bars| ==> bars[k].end <= c.start
    ensures TradedIn(s, bars + [c]) == TradedIn(s, bars) + TradedIn(s, [c])
  {
    if s != [] {
      var n := |s| - 1;
      TradedInAdd(s[..n], bars, c);
      StartsAdd(s[n], bars, c);
    }
  }

  lemma StartsAdd(x: Candle, bars: seq<Candle>, c: Candle)
    ensures StartsIn(x, bars + [c]) <==> StartsIn(x, bars) || c.start <= x.start < c.end
    ensures StartsIn(x, [c]) <==> c.start <= x.start < c.end
  {
    var all := bars + [c];
    assert forall k :: 0 <= k < |bars| ==> all[k] == bars[k];
    assert all[|bars|] == c && [c][0] == c;
  }

  /** The candles that start during a bar are the bar's own. */
  lemma {:induction false} TradedDuring(s: seq<Candle>, c: Candle, i: nat, j: nat)
    requires i <= j && forall k :: 0 <= k < |s| ==> (i <= k < j <==> c.start <= s[k].start < c.end)
    ensures TradedIn(s, [c]) == if |s| <= i then 0.0 else if |s| <= j then Traded(s[i..]) else Traded(s[i..j])
  {
    if s != [] {
      var n := |s| - 1;
      TradedDuring(s[..n], c, i, j);
      StartsAdd(s[n], [], c);
      if i <= n < j { assert s[i..][..n - i] == s[..n][i..]; } else if j <= n {
        assert s[..n][i..j] == s[i..j];
        if n == j { assert s[..n][i..] == s[i..j]; }
      }
    }
  }

  lemma BarVolume(s: seq<Candle>, a: int, w: int, c: Candle)
    requires w > 0 && AllValid(s) && NonOverlapping(s) && IsBar(s, a, w, c)
    ensures TradedIn(s, [c]) == c.volume && c.end == c.start + w && (c.start - a) % w == 0
  {
    hide Bar, Traded, TradedIn;
    var i, j :| Bar(s, a, w, i, j, c);
    BarEnds(s, a, w, i, j, c);
    BarTraded(s, a, w, i, j, c);
    BarSpan(s, i, j, c);
    TradedDuring(s, c, i, j);
    if |s| == j { assert s[i..] == s[i..j]; }
  }

  lemma BarTraded(s: seq<Candle>, a: int, w: int, i: int, j: int, c: Candle)
    requires w > 0 && Bar(s, a, w, i, j, c)
    ensures 0 <= i < j <= |s| && c.volume == Traded(s[i..j])
  {
    hide Traded;
  }

  lemma BarSpan(s: seq<Candle>, i: int, j: int, c: Candle)
    requires AllValid(s) && NonOverlapping(s) && 0 <= i < j <= |s| && s[i].start == c.start && s[j - 1].end == c.end
    ensures forall k :: 0 <= k < |s| ==> (i <= k < j <==> c.start <= s[k].start < c.end)
  {
    forall k | 0 <= k < |s| ensures i <= k < j <==> c.start <= s[k].start < c.end {
      if i < k { SpacedApart(s, i, k); }
      if k < j - 1 { SpacedApart(s, k, j - 1); }
      if k < i { SpacedApart(s, k, i); }
      if k >= j { SpacedApart(s, j - 1, k); }
    }
  }

  lemma Apart(c: Candle, d: Candle, a: int, w: int)
    requires w > 0 && (c.start - a) % w == 0 && (d.start - a) % w == 0 && c.start < d.start
    ensures c.start + w <= d.start
  {
    var p, q := (c.start - a) / w, (d.start - a) / w;
    assert c.start - a == p * w && d.start - a == q * w;
    if q <= p { MulMonotone(q, p, w); }
    MulMonotone(p + 1, q, w);
    assert (p + 1) * w == p * w + w;
  }

  lemma {:induction false} VolumeKept(s: seq<Candle>, a: int, w: int, r: seq<Candle>)
    requires w > 0 && AllValid(s) && NonOverlapping(s) && Rising(r) && forall c :: c in r ==> IsBar(s, a, w, c)
    ensures Traded(r) == TradedIn(s, r)
  {
    hide IsBar;
    if r == [] {
      NothingIn(s);
    } else {
      var n := |r| - 1;
      VolumeKept(s, a, w, r[..n]);
      BarVolume(s, a, w, r[n]);
      forall k | 0 <= k < n ensures r[..n][k].end <= r[n].start {
        BarVolume(s, a, w, r[k]);
        Apart(r[k], r[n], a, w);
      }
      TradedInAdd(s, r[..n], r[n]);
      assert r == r[..n] + [r[n]];
    }
  }

  lemma {:induction false} NothingIn(s: seq<Candle>)
    ensures TradedIn(s, []) == 0.0
  {
    if s != [] { NothingIn(s[..|s| - 1]); }
  }

  /** Volume is conserved: the result trades what the closed candles inside its buckets traded. */
  lemma ResampleVolume(candles: seq<Candle>, interval: int, asOf: int, anchor: Option<int>, midnight: Candle -> int, s: seq<Candle>)
    requires AllValid(candles) && Arranged(candles, asOf, s) && Resample(candles, interval, asOf, anchor, midnight).Ok?
    ensures var r := Resample(candles, interval, asOf, anchor, midnight).value; Traded(r) == TradedIn(s, r)
  {
    hide Selected, Resample, IsBar;
    ResampleMeaning(candles, interval, asOf, anchor, midnight, s);
    ArrangedSelected(candles, asOf, s);
    var r := Resample(candles, interval, asOf, anchor, midnight).value;
    if s == [] { NothingIn([]); } else { VolumeKept(s, Anchor(s, anchor, midnight), interval, r); }
  }
}
