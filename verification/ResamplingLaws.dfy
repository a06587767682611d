/** Resampling in two stages equals resampling once: a fine grid followed by a grid `k`
    times as coarse gives what the coarse grid gives directly. */
module ResamplingLaws {
  import opened Outcomes
  import opened Resampling

  // ----- coverage and aggregation of concatenated runs -----

  lemma CoversJoin(x: seq<Candle>, y: seq<Candle>, a: int, m: int, e: int)
    requires Covers(x, a, m) && Covers(y, m, e)
    ensures Covers(x + y, a, e)
  {
  }

  /** A covering run splits at any instant that no candle straddles. */
  lemma CoversSplit(x: seq<Candle>, y: seq<Candle>, a: int, m: int, e: int)
    requires AllValid(x) && AllValid(y) && a < m < e && Covers(x + y, a, e)
    requires forall i :: 0 <= i < |x| ==> x[i].end <= m
    requires forall i :: 0 <= i < |y| ==> m <= y[i].start
    ensures Covers(x, a, m) && Covers(y, m, e)
  {
    var z := x + y;
    assert x != [] by { assert z[0] !in y && z[0] in x + y; }
    assert y != [] by { assert z[|z| - 1] in x + y; }
    assert z[|x| - 1].end == z[|x|].start;
    assert Contiguous(x) by {
      forall i | 0 < i < |x| ensures x[i - 1].end == x[i].start { assert z[i - 1].end == z[i].start; }
    }
    assert Contiguous(y) by {
      forall i | 0 < i < |y| ensures y[i - 1].end == y[i].start {
        assert z[|x| + i - 1].end == z[|x| + i].start;
      }
    }
  }

  /** Two runs with the same open, high, low, close and volume. */
  ghost predicate Alike(x: seq<Candle>, y: seq<Candle>) {
    && x != [] && y != []
    && x[0].open == y[0].open && x[|x| - 1].close == y[|y| - 1].close
    && High(x) == High(y) && Low(x) == Low(y) && Volume(x) == Volume(y)
  }

  lemma {:induction false} HighConcat(x: seq<Candle>, y: seq<Candle>)
    requires x != [] && y != []
    ensures High(x + y) == if High(x) > High(y) then High(x) else High(y)
  {
    assert (x + y)[1..] == x[1..] + y;
    if |x| > 1 { HighConcat(x[1..], y); } else { assert x[1..] + y == y; }
  }

  lemma {:induction false} LowConcat(x: seq<Candle>, y: seq<Candle>)
    requires x != [] && y != []
    ensures Low(x + y) == if Low(x) < Low(y) then Low(x) else Low(y)
  {
    assert (x + y)[1..] == x[1..] + y;
    if |x| > 1 { LowConcat(x[1..], y); } else { assert x[1..] + y == y; }
  }

  lemma {:induction false} VolumeConcat(x: seq<Candle>, y: seq<Candle>)
    ensures Volume(x + y) == Volume(x) + Volume(y)
  {
    if x == [] {
      assert x + y == y;
    } else {
      assert (x + y)[1..] == x[1..] + y;
      VolumeConcat(x[1..], y);
    }
  }

  lemma AlikeConcat(x: seq<Candle>, x': seq<Candle>, y: seq<Candle>, y': seq<Candle>)
    requires Alike(x, x') && Alike(y, y')
    ensures Alike(x + y, x' + y')
  {
    HighConcat(x, y);
    HighConcat(x', y');
    LowConcat(x, y);
    LowConcat(x', y');
    VolumeConcat(x, y);
    VolumeConcat(x', y');
  }

  lemma {:induction false} AggregateValid(s: seq<Candle>, a: int, e: int)
    requires s != [] && AllValid(s) && a < e
    ensures Aggregate(s, a, e).Valid()
    ensures forall i :: 0 <= i < |s| ==> Low(s) <= s[i].low && s[i].high <= High(s)
  {
    if |s| > 1 {
      AggregateValid(s[1..], a, e);
      assert forall i :: 1 <= i < |s| ==> s[i] == s[1..][i - 1];
    } else {
      assert Volume(s[1..]) == 0.0;
    }
  }

  // ----- the shape of a resampled result -----

  /** An emitted candle fills bucket `b` and closes when some source candle does. */
  lemma EmitShape(g: Grid, s: seq<Candle>, b: int, x: Candle)
    requires g.width > 0 && AllValid(s) && x in Emit(g, s, b)
    ensures x.start == g.Edge(b) && x.end == g.Edge(b + 1) && g.Index(x) == b
    ensures x.Valid() && x.completed
    ensures exists i :: 0 <= i < |s| && s[i].end == x.end
  {
    hide Grid.Edge, Grid.Index;
    var group := Group(g, s, b);
    EdgeMonotone(g, b, b + 1);
    EdgeIndex(g, x, b);
    forall i | 0 <= i < |group| ensures group[i] in s {
      WithinMember(g, s, b, b + 1, group[i]);
    }
    AggregateValid(group, x.start, x.end);
    assert group[|group| - 1] in s;
  }

  ghost predicate OnGrid(g: Grid, s: seq<Candle>, lo: int, hi: int)
    requires g.width > 0
  {
    forall i :: 0 <= i < |s| ==>
      && lo <= g.Index(s[i]) < hi
      && s[i].start == g.Edge(g.Index(s[i])) && s[i].end == g.Edge(g.Index(s[i]) + 1)
  }

  lemma {:induction false} CollectShape(g: Grid, s: seq<Candle>, lo: int, hi: int, asOf: int)
    requires g.width > 0 && AllValid(s) && lo <= hi
    requires forall i :: 0 <= i < |s| ==> s[i].end <= asOf
    ensures OnGrid(g, Collect(g, s, lo, hi), lo, hi)
    ensures AllValid(Collect(g, s, lo, hi)) && NonOverlapping(Collect(g, s, lo, hi))
    ensures forall i :: 0 <= i < |Collect(g, s, lo, hi)| ==>
                          Collect(g, s, lo, hi)[i].completed && Collect(g, s, lo, hi)[i].end <= asOf
    decreases hi - lo
  {
    hide Grid.Edge, Grid.Index, Emit, OnGrid, AllValid, NonOverlapping, Candle.Valid;
    if lo < hi {
      CollectShape(g, s, lo, hi - 1, asOf);
      var before, last := Collect(g, s, lo, hi - 1), Emit(g, s, hi - 1);
      EmitLength(g, s, hi - 1);
      if last != [] {
        EmitShape(g, s, hi - 1, last[0]);
        assert last == [last[0]];
        LastEnds(g, before, lo, hi - 1);
        OneMoreCandle(g, before, last[0], lo, hi - 1);
      } else {
        assert before + last == before;
        WiderGrid(g, before, lo, hi - 1);
      }
    } else {
      NoCandles(g, lo, hi);
    }
  }

  lemma NoCandles(g: Grid, lo: int, hi: int)
    requires g.width > 0
    ensures OnGrid(g, [], lo, hi) && AllValid([]) && NonOverlapping([])
  {
  }

  lemma WiderGrid(g: Grid, s: seq<Candle>, lo: int, hi: int)
    requires g.width > 0 && OnGrid(g, s, lo, hi)
    ensures OnGrid(g, s, lo, hi + 1)
  {
    hide Grid.Edge, Grid.Index;
  }

  lemma LastEnds(g: Grid, s: seq<Candle>, lo: int, hi: int)
    requires g.width > 0 && OnGrid(g, s, lo, hi)
    ensures s != [] ==> s[|s| - 1].end <= g.Edge(hi)
  {
    hide Grid.Edge, Grid.Index;
    if s != [] { EdgeMonotone(g, g.Index(s[|s| - 1]) + 1, hi); }
  }

  /** A candle that fills bucket `hi` extends a run on the buckets before it. */
  lemma OneMoreCandle(g: Grid, before: seq<Candle>, x: Candle, lo: int, hi: int)
    requires g.width > 0 && lo <= hi && OnGrid(g, before, lo, hi) && AllValid(before) && NonOverlapping(before)
    requires x.Valid() && g.Index(x) == hi && x.start == g.Edge(hi) && x.end == g.Edge(hi + 1)
    requires before != [] ==> before[|before| - 1].end <= x.start
    ensures OnGrid(g, before + [x], lo, hi + 1) && AllValid(before + [x]) && NonOverlapping(before + [x])
  {
    hide Grid.Edge, Grid.Index, Candle.Valid;
  }

  lemma EmitLength(g: Grid, s: seq<Candle>, b: int)
    requires g.width > 0
    ensures |Emit(g, s, b)| <= 1
  {
  }

  lemma WithinEmit(g: Grid, s: seq<Candle>, b: int, p: int, q: int)
    requires g.width > 0 && AllValid(s)
    ensures Within(g, Emit(g, s, b), p, q) == if p <= b < q then Emit(g, s, b) else []
  {
    hide Grid.Edge, Grid.Index, Emit;
    var e := Emit(g, s, b);
    EmitLength(g, s, b);
    if e != [] {
      EmitShape(g, s, b, e[0]);
      assert e == [e[0]] && e[1..] == [];
    }
  }

  /** Re-reading a result bucket by bucket gives back the stretch that produced it. */
  lemma {:induction false} WithinCollect(g: Grid, s: seq<Candle>, lo: int, hi: int, p: int, q: int)
    requires g.width > 0 && AllValid(s) && lo <= hi && lo <= p <= q
    ensures Within(g, Collect(g, s, lo, hi), p, q) == Collect(g, s, p, if hi < q then hi else q)
    decreases hi - lo
  {
    hide Grid.Edge, Grid.Index, Emit;
    if lo < hi {
      WithinCollect(g, s, lo, hi - 1, p, q);
      WithinConcat(g, Collect(g, s, lo, hi - 1), Emit(g, s, hi - 1), p, q);
      WithinEmit(g, s, hi - 1, p, q);
    }
  }

  // ----- one stretch of buckets, seen fine and coarse -----

  lemma FitEdge(g: Grid, x: Candle, lo: int, hi: int)
    requires g.width > 0 && g.Fits(x) && lo <= g.Index(x) < hi
    ensures g.Edge(lo) <= x.start && x.end <= g.Edge(hi)
  {
    hide Grid.Edge, Grid.Index;
    IndexBounds(g, x);
    EdgeMonotone(g, lo, g.Index(x));
    EdgeMonotone(g, g.Index(x) + 1, hi);
  }

  lemma WithinFits(g: Grid, s: seq<Candle>, lo: int, hi: int)
    requires g.width > 0 && AllValid(s) && AllFit(g, s)
    ensures AllValid(Within(g, s, lo, hi))
    ensures forall i :: 0 <= i < |Within(g, s, lo, hi)| ==>
                          g.Edge(lo) <= Within(g, s, lo, hi)[i].start && Within(g, s, lo, hi)[i].end <= g.Edge(hi)
  {
    hide Grid.Edge, Grid.Index;
    var w := Within(g, s, lo, hi);
    forall i | 0 <= i < |w| ensures w[i].Valid() && g.Edge(lo) <= w[i].start && w[i].end <= g.Edge(hi) {
      WithinMember(g, s, lo, hi, w[i]);
      FitEdge(g, w[i], lo, hi);
    }
  }

  lemma CollectFits(g: Grid, s: seq<Candle>, lo: int, hi: int)
    requires g.width > 0 && AllValid(s) && lo <= hi
    ensures AllValid(Collect(g, s, lo, hi))
    ensures forall i :: 0 <= i < |Collect(g, s, lo, hi)| ==>
                          g.Edge(lo) <= Collect(g, s, lo, hi)[i].start && Collect(g, s, lo, hi)[i].end <= g.Edge(hi)
  {
    hide Grid.Edge, Grid.Index;
    var asOf := LatestEnd(s);
    CollectShape(g, s, lo, hi, asOf);
    var r := Collect(g, s, lo, hi);
    forall i | 0 <= i < |r| ensures g.Edge(lo) <= r[i].start && r[i].end <= g.Edge(hi) {
      FitEdge(g, r[i], lo, hi);
    }
  }

  lemma {:induction false} LatestEnd(s: seq<Candle>) returns (e: int)
    ensures forall i :: 0 <= i < |s| ==> s[i].end <= e
  {
    if s == [] {
      e := 0;
    } else {
      var f := LatestEnd(s[1..]);
      e := if s[0].end > f then s[0].end else f;
      assert forall i :: 1 <= i < |s| ==> s[i] == s[1..][i - 1];
    }
  }

  ghost predicate SameOnStretch(w: seq<Candle>, c: seq<Candle>, a: int, e: int) {
    (Covers(w, a, e) <==> Covers(c, a, e)) && (Covers(w, a, e) ==> Alike(w, c))
  }

  /** Extending two matching stretches by one matching bucket keeps them matching. */
  lemma StretchStep(w: seq<Candle>, w': seq<Candle>, c: seq<Candle>, c': seq<Candle>, a: int, m: int, e: int)
    requires AllValid(w) && AllValid(w') && AllValid(c) && AllValid(c') && a < m < e
    requires forall i :: 0 <= i < |w| ==> w[i].end <= m
    requires forall i :: 0 <= i < |c| ==> c[i].end <= m
    requires forall i :: 0 <= i < |w'| ==> m <= w'[i].start
    requires forall i :: 0 <= i < |c'| ==> m <= c'[i].start
    requires SameOnStretch(w, c, a, m) && SameOnStretch(w', c', m, e)
    ensures SameOnStretch(w + w', c + c', a, e)
  {
    hide Covers;
    if Covers(w + w', a, e) { CoversSplit(w, w', a, m, e); }
    if Covers(c + c', a, e) { CoversSplit(c, c', a, m, e); }
    if Covers(w, a, m) && Covers(w', m, e) {
      CoversJoin(w, w', a, m, e);
      CoversJoin(c, c', a, m, e);
      AlikeConcat(w, c, w', c');
    }
  }

  lemma OneBucket(g: Grid, s: seq<Candle>, b: int)
    requires g.width > 0
    ensures SameOnStretch(Within(g, s, b, b + 1), Emit(g, s, b), g.Edge(b), g.Edge(b + 1))
  {
  }

  /** Source candles cover a stretch exactly when the resampled candles do, and then both
      aggregate to the same candle. */
  lemma {:induction false} Coarsen(g: Grid, s: seq<Candle>, p: int, q: int)
    requires g.width > 0 && p < q && AllValid(s) && NonOverlapping(s) && AllFit(g, s)
    ensures SameOnStretch(Within(g, s, p, q), Collect(g, s, p, q), g.Edge(p), g.Edge(q))
    decreases q - p
  {
    hide Grid.Edge, Grid.Index, Emit, SameOnStretch;
    OneBucket(g, s, q - 1);
    if p == q - 1 {
      assert Collect(g, s, p, q) == Emit(g, s, p);
    } else {
      Coarsen(g, s, p, q - 1);
      WithinSplit(g, s, p, q - 1, q);
      WithinFits(g, s, p, q - 1);
      WithinFits(g, s, q - 1, q);
      CollectFits(g, s, p, q - 1);
      CollectFits(g, s, q - 1, q);
      EdgeMonotone(g, p, q - 1);
      EdgeMonotone(g, q - 1, q);
      assert Collect(g, s, q - 1, q) == Emit(g, s, q - 1);
      StretchStep(Within(g, s, p, q - 1), Within(g, s, q - 1, q), Collect(g, s, p, q - 1), Emit(g, s, q - 1),
                  g.Edge(p), g.Edge(q - 1), g.Edge(q));
    }
  }

  // ----- the coarse grid -----

  function Coarse(g: Grid, k: int): Grid {
    Grid(g.anchor, k * g.width)
  }

  lemma CoarseEdge(g: Grid, k: int, b: int)
    ensures Coarse(g, k).Edge(b) == g.Edge(k * b)
  {
    assert b * (k * g.width) == (k * b) * g.width;
  }

  lemma CoarseWidth(g: Grid, k: int)
    requires g.width > 0 && k > 0
    ensures Coarse(g, k).width > 0
  {
    MulMonotone(1, k, g.width);
  }

  lemma CoarseIndex(g: Grid, k: int, x: Candle)
    requires g.width > 0 && k > 0
    ensures Coarse(g, k).width > 0
    ensures k * Coarse(g, k).Index(x) <= g.Index(x) < k * (Coarse(g, k).Index(x) + 1)
  {
    CoarseWidth(g, k);
    var i := g.Index(x);
    var b := i / k;
    assert k * b <= i < k * (b + 1) by { assert i == k * b + i % k; }
    CoarseBucket(g, k, x, b);
  }

  lemma CoarseBucket(g: Grid, k: int, x: Candle, b: int)
    requires g.width > 0 && k > 0 && Coarse(g, k).width > 0
    requires k * b <= g.Index(x) < k * (b + 1)
    ensures Coarse(g, k).Index(x) == b
  {
    hide Grid.Edge, Grid.Index, Coarse;
    CoarseEdge(g, k, b);
    CoarseEdge(g, k, b + 1);
    IndexBounds(g, x);
    EdgeMonotone(g, k * b, g.Index(x));
    EdgeMonotone(g, g.Index(x) + 1, k * (b + 1));
    EdgeIndex(Coarse(g, k), x, b);
  }

  lemma {:induction false} CoarseWithin(g: Grid, k: int, s: seq<Candle>, b: int)
    requires g.width > 0 && k > 0 && Coarse(g, k).width > 0
    ensures Within(Coarse(g, k), s, b, b + 1) == Within(g, s, k * b, k * (b + 1))
  {
    hide Grid.Edge, Grid.Index, Coarse;
    if s != [] {
      CoarseWithin(g, k, s[1..], b);
      CoarseIndex(g, k, s[0]);
      var c := Coarse(g, k).Index(s[0]);
      if c < b { MulMonotone(c + 1, b, k); }
      if b < c { MulMonotone(b + 1, c, k); }
    }
  }

  lemma CoarseFit(g: Grid, k: int, s: seq<Candle>)
    requires g.width > 0 && k > 0 && AllFit(g, s)
    ensures Coarse(g, k).width > 0 && AllFit(Coarse(g, k), s)
  {
    hide Grid.Edge, Grid.Index, Coarse;
    CoarseWidth(g, k);
    forall i | 0 <= i < |s| ensures Coarse(g, k).Fits(s[i]) {
      CoarseIndex(g, k, s[i]);
      CoarseEdge(g, k, Coarse(g, k).Index(s[i]) + 1);
      EdgeMonotone(g, g.Index(s[i]) + 1, k * (Coarse(g, k).Index(s[i]) + 1));
    }
  }

  /** A coarse bucket emits the same candle from the source as from the fine result. */
  lemma EmitCoarse(g: Grid, k: int, s: seq<Candle>, b: int)
    requires g.width > 0 && k > 0 && Coarse(g, k).width > 0
    requires AllValid(s) && NonOverlapping(s) && AllFit(g, s)
    ensures Emit(Coarse(g, k), CollectSpan(g, s), b) == Emit(Coarse(g, k), s, b)
  {
    hide Grid.Edge, Grid.Index, Coarse, CollectSpan, Covers;
    var p, q := k * b, k * (b + 1);
    assert p < q;
    SpanBounds(g, s);
    var lo := if s != [] && g.Index(s[0]) < p then g.Index(s[0]) else p;
    var hi := if s != [] && q <= g.Index(s[|s| - 1]) then g.Index(s[|s| - 1]) + 1 else q;
    CollectAnySpan(g, s, lo, hi);
    WithinCollect(g, s, lo, hi, p, q);
    CoarseWithin(g, k, s, b);
    CoarseWithin(g, k, CollectSpan(g, s), b);
    Coarsen(g, s, p, q);
    CoarseEdge(g, k, b);
    CoarseEdge(g, k, b + 1);
  }

  lemma {:induction false} CollectCongruent(g: Grid, s: seq<Candle>, t: seq<Candle>, lo: int, hi: int)
    requires g.width > 0
    requires forall b :: Emit(g, s, b) == Emit(g, t, b)
    ensures Collect(g, s, lo, hi) == Collect(g, t, lo, hi)
    decreases hi - lo
  {
    if lo < hi { CollectCongruent(g, s, t, lo, hi - 1); }
  }

  lemma SpanCongruent(g: Grid, s: seq<Candle>, t: seq<Candle>)
    requires g.width > 0 && AllValid(s) && NonOverlapping(s) && AllValid(t) && NonOverlapping(t)
    requires forall b :: Emit(g, s, b) == Emit(g, t, b)
    ensures CollectSpan(g, s) == CollectSpan(g, t)
  {
    hide Grid.Edge, Grid.Index, Emit, CollectSpan;
    SpanBounds(g, s);
    SpanBounds(g, t);
    var lo, hi := 0, 0;
    if s != [] { lo, hi := g.Index(s[0]), g.Index(s[|s| - 1]) + 1; }
    if t != [] && (s == [] || g.Index(t[0]) < lo) { lo := g.Index(t[0]); }
    if t != [] && (s == [] || hi <= g.Index(t[|t| - 1])) { hi := g.Index(t[|t| - 1]) + 1; }
    CollectAnySpan(g, s, lo, hi);
    CollectAnySpan(g, t, lo, hi);
    CollectCongruent(g, s, t, lo, hi);
  }

  /** The fine result is itself a spaced run of closed candles that fits the fine grid. */
  lemma FineResult(g: Grid, s: seq<Candle>, asOf: int)
    requires g.width > 0 && AllValid(s) && NonOverlapping(s)
    requires forall i :: 0 <= i < |s| ==> s[i].end <= asOf
    ensures var r := CollectSpan(g, s);
      AllValid(r) && NonOverlapping(r) && AllFit(g, r) && Selected(r, asOf) == r
  {
    hide Grid.Edge, Grid.Index, Emit, Selected;
    if s != [] {
      SpanBounds(g, s);
      CollectShape(g, s, g.Index(s[0]), g.Index(s[|s| - 1]) + 1, asOf);
    }
    SelectedIdentity(CollectSpan(g, s), asOf);
  }

  lemma SpansCompose(g: Grid, k: int, s: seq<Candle>, asOf: int)
    requires g.width > 0 && k > 0 && AllValid(s) && NonOverlapping(s) && AllFit(g, s)
    requires forall i :: 0 <= i < |s| ==> s[i].end <= asOf
    ensures Coarse(g, k).width > 0
    ensures CollectSpan(Coarse(g, k), CollectSpan(g, s)) == CollectSpan(Coarse(g, k), s)
  {
    hide Grid.Edge, Grid.Index, Emit, Selected, CollectSpan, Coarse;
    CoarseWidth(g, k);
    FineResult(g, s, asOf);
    forall b ensures Emit(Coarse(g, k), CollectSpan(g, s), b) == Emit(Coarse(g, k), s, b) {
      EmitCoarse(g, k, s, b);
    }
    SpanCongruent(Coarse(g, k), CollectSpan(g, s), s);
  }

  /** Resampling composes: resampling a successful result to `k` times its interval, from the
      same anchor and at the same evaluation time, is resampling the source directly. */
  lemma ResampleComposes(candles: seq<Candle>, interval: int, k: int, asOf: int, anchor: int,
                         midnight: Candle -> int)
    requires AllValid(candles) && k > 0
    requires Resample(candles, interval, asOf, Some(anchor), midnight).Ok?
    ensures Resample(candles, k * interval, asOf, Some(anchor), midnight).Ok?
    ensures Resample(Resample(candles, interval, asOf, Some(anchor), midnight).value,
                     k * interval, asOf, Some(anchor), midnight)
         == Resample(candles, k * interval, asOf, Some(anchor), midnight)
  {
    hide Grid.Edge, Grid.Index, Emit, Selected, CollectSpan;
    var s := Selected(candles, asOf);
    SelectedElements(candles, asOf);
    var g := Grid(anchor, interval);
    CoarseWidth(g, k);
    if s == [] {
      SelectedIdentity([], asOf);
    } else {
      FineResult(g, s, asOf);
      CoarseFit(g, k, s);
      CoarseFit(g, k, CollectSpan(g, s));
      SpansCompose(g, k, s, asOf);
      if CollectSpan(g, s) == [] { EmptySpan(Coarse(g, k)); }
    }
  }

  lemma EmptySpan(g: Grid)
    requires g.width > 0
    ensures CollectSpan(g, []) == []
  {
  }
}
