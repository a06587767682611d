/** Candle resampling: completed OHLCV candles are gathered into fixed buckets, and a
    bucket is emitted only when contiguous candles cover it exactly. Instants are integer
    microseconds and prices exact reals. */
module Resampling {
  import opened Ordering
  import opened Outcomes

  datatype Candle = Candle(
    start: int, end: int, open: real, high: real, low: real, close: real, volume: real, completed: bool)
  {
    /** What constructing a candle checks. */
    predicate Valid() {
      && start < end
      && open > 0.0 && high > 0.0 && low > 0.0 && close > 0.0 && volume >= 0.0
      && high >= open && high >= close && high >= low
      && low <= open && low <= close
    }
  }

  ghost predicate AllValid(s: seq<Candle>) {
    forall i :: 0 <= i < |s| ==> s[i].Valid()
  }

  predicate CandleLeq(a: Candle, b: Candle) {
    a.end < b.end || (a.end == b.end && a.start <= b.start)
  }

  /** The candles that are closed by `asOf`, in input order. */
  function Closed(s: seq<Candle>, asOf: int): seq<Candle> {
    if s == [] then []
    else (if s[0].completed && s[0].end <= asOf then [s[0]] else []) + Closed(s[1..], asOf)
  }

  function Selected(s: seq<Candle>, asOf: int): seq<Candle> {
    Sort(CandleLeq, Closed(s, asOf))
  }

  predicate NonOverlapping(s: seq<Candle>) {
    forall i :: 0 < i < |s| ==> s[i - 1].end <= s[i].start
  }

  /** Sorts the completed candles and refuses overlaps. */
  method Completed(candles: seq<Candle>, asOf: int) returns (r: Result<seq<Candle>>)
    ensures r.Ok? <==> NonOverlapping(Selected(candles, asOf))
    ensures r.Ok? ==> r.value == Selected(candles, asOf)
  {
    var selected := Selected(candles, asOf);
    var previous: Option<Candle> := None;
    for i := 0 to |selected|
      invariant forall k :: 0 < k < i ==> selected[k - 1].end <= selected[k].start
      invariant previous == if i == 0 then None else Some(selected[i - 1])
    {
      if previous.Some? && selected[i].start < previous.value.end {
        return Err("completed candles overlap");
      }
      previous := Some(selected[i]);
    }
    return Ok(selected);
  }

  /** Buckets of one width, counted from an anchor. */
  datatype Grid = Grid(anchor: int, width: int) {
    function Index(c: Candle): int
      requires width > 0
    {
      (c.start - anchor) / width
    }

    function Edge(b: int): int {
      anchor + b * width
    }

    /** The candle does not run past the end of its bucket. */
    predicate Fits(c: Candle)
      requires width > 0
    {
      c.end <= Edge(Index(c) + 1)
    }
  }

  ghost predicate AllFit(g: Grid, s: seq<Candle>)
    requires g.width > 0
  {
    forall i :: 0 <= i < |s| ==> g.Fits(s[i])
  }

  /** The candles of `s` that start in buckets `lo` up to, not including, `hi`. */
  function Within(g: Grid, s: seq<Candle>, lo: int, hi: int): seq<Candle>
    requires g.width > 0
  {
    if s == [] then []
    else (if lo <= g.Index(s[0]) < hi then [s[0]] else []) + Within(g, s[1..], lo, hi)
  }

  /** The candles of one bucket, in time order. */
  function Group(g: Grid, s: seq<Candle>, b: int): seq<Candle>
    requires g.width > 0
  {
    Within(g, s, b, b + 1)
  }

  predicate Contiguous(s: seq<Candle>) {
    forall i :: 0 < i < |s| ==> s[i - 1].end == s[i].start
  }

  predicate Covers(s: seq<Candle>, a: int, e: int) {
    s != [] && s[0].start == a && s[|s| - 1].end == e && Contiguous(s)
  }

  function High(s: seq<Candle>): real
    requires s != []
  {
    if |s| == 1 then s[0].high
    else var m := High(s[1..]); if s[0].high > m then s[0].high else m
  }

  function Low(s: seq<Candle>): real
    requires s != []
  {
    if |s| == 1 then s[0].low
    else var m := Low(s[1..]); if s[0].low < m then s[0].low else m
  }

  function Volume(s: seq<Candle>): real {
    if s == [] then 0.0 else s[0].volume + Volume(s[1..])
  }

  function Aggregate(s: seq<Candle>, a: int, e: int): Candle
    requires s != []
  {
    Candle(a, e, s[0].open, High(s), Low(s), s[|s| - 1].close, Volume(s), true)
  }

  /** What bucket `b` contributes to the result. */
  function Emit(g: Grid, s: seq<Candle>, b: int): seq<Candle>
    requires g.width > 0
  {
    var group := Group(g, s, b);
    if Covers(group, g.Edge(b), g.Edge(b + 1)) then [Aggregate(group, g.Edge(b), g.Edge(b + 1))] else []
  }

  function Collect(g: Grid, s: seq<Candle>, lo: int, hi: int): seq<Candle>
    requires g.width > 0
    decreases hi - lo
  {
    if lo >= hi then [] else Collect(g, s, lo, hi - 1) + Emit(g, s, hi - 1)
  }

  /** Buckets outside the span of `s` contribute nothing, so the span is enough. */
  function CollectSpan(g: Grid, s: seq<Candle>): seq<Candle>
    requires g.width > 0
  {
    if s == [] then [] else Collect(g, s, g.Index(s[0]), g.Index(s[|s| - 1]) + 1)
  }

  function AnchorOf(selected: seq<Candle>, anchor: Option<int>, midnight: Candle -> int): int
    requires selected != []
  {
    if anchor.Some? then anchor.value else midnight(selected[0])
  }

  /** Resampling as a value: bucket by bucket, each read off the selected candles. */
  ghost function Resample(
    candles: seq<Candle>, interval: int, asOf: int, anchor: Option<int>, midnight: Candle -> int)
    : Result<seq<Candle>>
  {
    var selected := Selected(candles, asOf);
    if interval <= 0 then Err("resampling interval must be positive")
    else if !NonOverlapping(selected) then Err("completed candles overlap")
    else if selected == [] then Ok([])
    else
      var g := Grid(AnchorOf(selected, anchor, midnight), interval);
      if !AllFit(g, selected) then Err("source candle crosses a resampling bucket boundary")
      else Ok(CollectSpan(g, selected))
  }

  // ----- facts about selection -----

  lemma CandleOrder()
    ensures TotalPreorder(CandleLeq)
  {
  }

  lemma {:induction false} ClosedCount(s: seq<Candle>, asOf: int, x: Candle)
    ensures multiset(Closed(s, asOf))[x] == if x.completed && x.end <= asOf then multiset(s)[x] else 0
  {
    if s != [] {
      ClosedCount(s[1..], asOf, x);
      assert s == [s[0]] + s[1..];
    }
  }

  lemma SelectedElements(s: seq<Candle>, asOf: int)
    requires AllValid(s)
    ensures multiset(Selected(s, asOf)) == multiset(Closed(s, asOf))
    ensures SortedBy(CandleLeq, Selected(s, asOf))
    ensures AllValid(Selected(s, asOf))
    ensures forall i :: 0 <= i < |Selected(s, asOf)| ==>
                          Selected(s, asOf)[i].completed && Selected(s, asOf)[i].end <= asOf
  {
    CandleOrder();
    SortCorrect(CandleLeq, Closed(s, asOf));
    var t := Selected(s, asOf);
    forall i | 0 <= i < |t| ensures t[i].Valid() && t[i].completed && t[i].end <= asOf {
      assert t[i] in multiset(t);
      ClosedCount(s, asOf, t[i]);
      assert t[i] in multiset(s);
      assert t[i] in s;
    }
  }

  lemma {:induction false} SpacedApart(s: seq<Candle>, i: int, j: int)
    requires AllValid(s) && NonOverlapping(s) && 0 <= i < j < |s|
    ensures s[i].end <= s[j].start && s[i].start < s[j].start && s[i].end < s[j].end
    decreases j - i
  {
    assert s[j - 1].end <= s[j].start;
    if i < j - 1 { SpacedApart(s, i, j - 1); }
  }

  lemma SpacedNoTies(s: seq<Candle>)
    requires AllValid(s) && NonOverlapping(s)
    ensures NoTies(CandleLeq, s) && SortedBy(CandleLeq, s)
  {
    forall i, j | 0 <= i < |s| && 0 <= j < |s| && i != j
      ensures CandleLeq(s[i], s[j]) <==> i < j
    {
      if i < j { SpacedApart(s, i, j); } else { SpacedApart(s, j, i); }
    }
  }

  /** A spaced run of closed candles is its own selection. */
  lemma SelectedIdentity(s: seq<Candle>, asOf: int)
    requires AllValid(s) && NonOverlapping(s)
    requires forall i :: 0 <= i < |s| ==> s[i].completed && s[i].end <= asOf
    ensures Selected(s, asOf) == s
  {
    SelectedElements(s, asOf);
    SpacedNoTies(s);
    CandleOrder();
    forall x ensures multiset(Closed(s, asOf))[x] == multiset(s)[x] {
      ClosedCount(s, asOf, x);
      if x in multiset(s) { assert x in s; }
    }
    SortedUnique(CandleLeq, s, Selected(s, asOf));
  }

  lemma {:induction false} ClosedIsPrefix(s: seq<Candle>, asOf: int) returns (n: nat)
    requires AllValid(s) && NonOverlapping(s)
    requires forall i :: 0 <= i < |s| ==> s[i].completed
    ensures n <= |s| && Closed(s, asOf) == s[..n]
    ensures n < |s| ==> s[n].end > asOf
  {
    if s == [] {
      n := 0;
    } else if s[0].end <= asOf {
      var m := ClosedIsPrefix(s[1..], asOf);
      n := m + 1;
      assert s[..n] == [s[0]] + s[1..][..m];
    } else {
      n := 0;
      NoneClosed(s, asOf);
    }
  }

  /** When the first candle of a spaced run is still open, all are. */
  lemma {:induction false} NoneClosed(s: seq<Candle>, asOf: int)
    requires AllValid(s) && NonOverlapping(s) && s != [] && s[0].end > asOf
    ensures Closed(s, asOf) == []
  {
    if |s| > 1 {
      SpacedApart(s, 0, 1);
      NoneClosed(s[1..], asOf);
    }
  }

  /** An earlier evaluation time selects a prefix of what a later one selects. */
  lemma SelectedPrefix(s: seq<Candle>, early: int, late: int) returns (n: nat)
    requires AllValid(s) && early <= late && NonOverlapping(Selected(s, late))
    ensures n <= |Selected(s, late)| && Selected(s, early) == Selected(s, late)[..n]
  {
    hide Selected, Closed, SortedBy, NoTies, TotalPreorder;
    var full := Selected(s, late);
    SelectedElements(s, late);
    SelectedElements(s, early);
    n := ClosedIsPrefix(full, early);
    var part := full[..n];
    SameElements(s, early, late);
    SpacedNoTies(part);
    CandleOrder();
    SortedUnique(CandleLeq, part, Selected(s, early));
  }

  /** What is closed early among the later selection is the earlier selection. */
  lemma SameElements(s: seq<Candle>, early: int, late: int)
    requires AllValid(s) && early <= late
    ensures multiset(Closed(Selected(s, late), early)) == multiset(Selected(s, early))
  {
    hide Selected, Closed, SortedBy, AllValid;
    var full := Selected(s, late);
    SelectedElements(s, late);
    SelectedElements(s, early);
    var part, target := multiset(Closed(full, early)), multiset(Selected(s, early));
    forall x ensures part[x] == target[x] {
      ClosedCount(full, early, x);
      ClosedCount(s, late, x);
      ClosedCount(s, early, x);
    }
  }

  // ----- facts about buckets -----

  lemma IndexBounds(g: Grid, x: Candle)
    requires g.width > 0
    ensures g.Edge(g.Index(x)) <= x.start < g.Edge(g.Index(x) + 1)
  {
    var p, w := x.start - g.anchor, g.width;
    assert p == (p / w) * w + p % w;
    assert (p / w + 1) * w == (p / w) * w + w;
  }

  lemma EdgeIndex(g: Grid, x: Candle, b: int)
    requires g.width > 0 && g.Edge(b) <= x.start < g.Edge(b + 1)
    ensures g.Index(x) == b
  {
    IndexBounds(g, x);
    hide Grid.Edge, Grid.Index;
    if g.Index(x) < b { EdgeMonotone(g, g.Index(x) + 1, b); }
    if g.Index(x) > b { EdgeMonotone(g, b + 1, g.Index(x)); }
  }

  lemma {:induction false} MulMonotone(a: int, b: int, w: int)
    requires w >= 0 && a <= b
    ensures a * w <= b * w
    decreases b - a
  {
    if a < b {
      MulMonotone(a, b - 1, w);
      assert b * w == (b - 1) * w + w;
    }
  }

  lemma EdgeMonotone(g: Grid, a: int, b: int)
    requires g.width > 0 && a <= b
    ensures g.Edge(a) <= g.Edge(b)
    ensures a < b ==> g.Edge(a) < g.Edge(b)
  {
    if a < b {
      MulMonotone(a + 1, b, g.width);
      assert (a + 1) * g.width == a * g.width + g.width;
    }
  }

  /** Bucket numbers follow start times. */
  lemma IndexMonotone(g: Grid, x: Candle, y: Candle)
    requires g.width > 0 && x.start <= y.start
    ensures g.Index(x) <= g.Index(y)
  {
    hide Grid.Edge, Grid.Index;
    IndexBounds(g, x);
    IndexBounds(g, y);
    if g.Index(y) < g.Index(x) { EdgeMonotone(g, g.Index(y) + 1, g.Index(x)); }
  }

  lemma {:induction false} WithinConcat(g: Grid, s: seq<Candle>, t: seq<Candle>, lo: int, hi: int)
    requires g.width > 0
    ensures Within(g, s + t, lo, hi) == Within(g, s, lo, hi) + Within(g, t, lo, hi)
  {
    if s == [] {
      assert s + t == t;
    } else {
      assert (s + t)[1..] == s[1..] + t;
      WithinConcat(g, s[1..], t, lo, hi);
    }
  }

  lemma {:induction false} WithinMember(g: Grid, s: seq<Candle>, lo: int, hi: int, x: Candle)
    requires g.width > 0
    ensures x in Within(g, s, lo, hi) <==> x in s && lo <= g.Index(x) < hi
  {
    if s != [] {
      WithinMember(g, s[1..], lo, hi, x);
      assert s == [s[0]] + s[1..];
    }
  }

  lemma WithinEmpty(g: Grid, s: seq<Candle>, lo: int, hi: int)
    requires g.width > 0
    requires forall i :: 0 <= i < |s| ==> !(lo <= g.Index(s[i]) < hi)
    ensures Within(g, s, lo, hi) == []
  {
    hide Grid.Edge, Grid.Index;
    if Within(g, s, lo, hi) != [] {
      WithinMember(g, s, lo, hi, Within(g, s, lo, hi)[0]);
    }
  }

  /** On spaced candles a span of buckets splits at any bucket. */
  lemma {:induction false} WithinSplit(g: Grid, s: seq<Candle>, lo: int, m: int, hi: int)
    requires g.width > 0 && lo <= m <= hi && AllValid(s) && NonOverlapping(s)
    ensures Within(g, s, lo, hi) == Within(g, s, lo, m) + Within(g, s, m, hi)
  {
    hide Grid.Edge, Grid.Index;
    if s != [] {
      WithinSplit(g, s[1..], lo, m, hi);
      if m <= g.Index(s[0]) {
        forall i | 0 <= i < |s[1..]| ensures m <= g.Index(s[1..][i]) {
          SpacedApart(s, 0, i + 1);
          IndexMonotone(g, s[0], s[i + 1]);
        }
        WithinEmpty(g, s[1..], lo, m);
      }
    }
  }

  /** Buckets that hold no candle add nothing. */
  lemma {:induction false} CollectExtend(g: Grid, s: seq<Candle>, lo: int, hi: int, lo': int, hi': int)
    requires g.width > 0 && lo' <= lo && hi <= hi' && lo <= hi
    requires forall i :: 0 <= i < |s| ==> lo <= g.Index(s[i]) < hi
    ensures Collect(g, s, lo', hi') == Collect(g, s, lo, hi)
    decreases hi' - lo'
  {
    hide Grid.Edge, Grid.Index;
    if hi < hi' {
      CollectExtend(g, s, lo, hi, lo', hi' - 1);
      WithinEmpty(g, s, hi' - 1, hi');
    } else if lo' < hi {
      CollectLower(g, s, lo, hi, lo');
    }
  }

  lemma {:induction false} CollectLower(g: Grid, s: seq<Candle>, lo: int, hi: int, lo': int)
    requires g.width > 0 && lo' <= lo <= hi
    requires forall i :: 0 <= i < |s| ==> lo <= g.Index(s[i])
    ensures Collect(g, s, lo', hi) == Collect(g, s, lo, hi)
    decreases hi - lo'
  {
    hide Grid.Edge, Grid.Index;
    if lo < hi {
      CollectLower(g, s, lo, hi - 1, lo');
    } else if lo' < hi {
      CollectLower(g, s, lo - 1, hi - 1, lo');
      WithinEmpty(g, s, hi - 1, hi);
    }
  }

  lemma SpanBounds(g: Grid, s: seq<Candle>)
    requires g.width > 0 && AllValid(s) && NonOverlapping(s)
    ensures forall i :: 0 <= i < |s| ==> g.Index(s[0]) <= g.Index(s[i]) <= g.Index(s[|s| - 1])
  {
    hide Grid.Edge, Grid.Index;
    forall i | 0 <= i < |s| ensures g.Index(s[0]) <= g.Index(s[i]) <= g.Index(s[|s| - 1]) {
      if 0 < i { SpacedApart(s, 0, i); }
      if i < |s| - 1 { SpacedApart(s, i, |s| - 1); }
      IndexMonotone(g, s[0], s[i]);
      IndexMonotone(g, s[i], s[|s| - 1]);
    }
  }

  /** Any span that holds every candle gives the same result. */
  lemma CollectAnySpan(g: Grid, s: seq<Candle>, lo: int, hi: int)
    requires g.width > 0 && AllValid(s) && NonOverlapping(s) && lo <= hi
    requires forall i :: 0 <= i < |s| ==> lo <= g.Index(s[i]) < hi
    ensures CollectSpan(g, s) == Collect(g, s, lo, hi)
  {
    hide Grid.Edge, Grid.Index;
    if s == [] {
      CollectExtend(g, s, lo, lo, lo, hi);
    } else {
      SpanBounds(g, s);
      CollectExtend(g, s, g.Index(s[0]), g.Index(s[|s| - 1]) + 1, lo, hi);
    }
  }

  // ----- no repainting -----

  /** Once a bucket is covered, or left behind, candles that come later never land in it. */
  lemma LaterElsewhere(g: Grid, s: seq<Candle>, n: nat, b: int, i: int)
    requires g.width > 0 && AllValid(s) && NonOverlapping(s) && n <= i < |s|
    requires Emit(g, s[..n], b) != [] || (n > 0 && b < g.Index(s[n - 1]))
    ensures g.Index(s[i]) != b
  {
    hide Grid.Edge, Grid.Index;
    if Emit(g, s[..n], b) != [] {
      var group := Group(g, s[..n], b);
      var last := group[|group| - 1];
      WithinMember(g, s[..n], b, b + 1, last);
      var k :| 0 <= k < n && s[..n][k] == last;
      SpacedApart(s, k, i);
      IndexBounds(g, s[i]);
    } else {
      SpacedApart(s, n - 1, i);
      IndexMonotone(g, s[n - 1], s[i]);
    }
  }

  lemma EmitStable(g: Grid, s: seq<Candle>, n: nat, b: int)
    requires g.width > 0 && AllValid(s) && NonOverlapping(s) && n <= |s|
    requires Emit(g, s[..n], b) != [] || (n > 0 && b < g.Index(s[n - 1]))
    ensures Emit(g, s[..n], b) == Emit(g, s, b)
  {
    hide Grid.Edge, Grid.Index, Covers, Aggregate;
    var early, later := s[..n], s[n..];
    assert s == early + later;
    WithinConcat(g, early, later, b, b + 1);
    forall i | 0 <= i < |later| ensures !(b <= g.Index(later[i]) < b + 1) {
      LaterElsewhere(g, s, n, b, n + i);
    }
    WithinEmpty(g, later, b, b + 1);
    assert Group(g, early, b) + [] == Group(g, early, b);
  }

  lemma {:induction false} CollectPrefix(g: Grid, s: seq<Candle>, n: nat, lo: int, hi: int)
    requires g.width > 0 && AllValid(s) && NonOverlapping(s) && 0 < n <= |s|
    requires lo <= hi <= g.Index(s[n - 1])
    ensures Collect(g, s[..n], lo, hi) == Collect(g, s, lo, hi)
    decreases hi - lo
  {
    hide Grid.Edge, Grid.Index;
    if lo < hi {
      CollectPrefix(g, s, n, lo, hi - 1);
      EmitStable(g, s, n, hi - 1);
    }
  }

  lemma {:induction false} CollectGrows(g: Grid, s: seq<Candle>, lo: int, mid: int, hi: int)
    requires g.width > 0 && lo <= mid <= hi
    ensures Collect(g, s, lo, mid) <= Collect(g, s, lo, hi)
    decreases hi - mid
  {
    if mid < hi { CollectGrows(g, s, lo, mid, hi - 1); }
  }

  lemma SpanPrefix(g: Grid, s: seq<Candle>, n: nat)
    requires g.width > 0 && AllValid(s) && NonOverlapping(s) && 0 < n <= |s|
    ensures CollectSpan(g, s[..n]) <= CollectSpan(g, s)
  {
    hide Grid.Edge, Grid.Index, Emit;
    var part := s[..n];
    var lo, top, hi := g.Index(s[0]), g.Index(s[n - 1]), g.Index(s[|s| - 1]) + 1;
    SpanBounds(g, s);
    assert lo <= top < hi;
    CollectPrefix(g, s, n, lo, top);
    assert part[0] == s[0] && part[|part| - 1] == s[n - 1];
    assert CollectSpan(g, part) == Collect(g, s, lo, top) + Emit(g, part, top);
    if Emit(g, part, top) != [] { EmitStable(g, s, n, top); }
    assert Collect(g, s, lo, top + 1) == Collect(g, s, lo, top) + Emit(g, s, top);
    CollectGrows(g, s, lo, top + 1, hi);
  }

  /** No repainting: evaluating earlier succeeds whenever evaluating later does, and gives
      a prefix of the later result. */
  lemma NoRepaint(candles: seq<Candle>, interval: int, early: int, late: int,
                  anchor: Option<int>, midnight: Candle -> int)
    requires AllValid(candles) && early <= late
    requires Resample(candles, interval, late, anchor, midnight).Ok?
    ensures Resample(candles, interval, early, anchor, midnight).Ok?
    ensures Resample(candles, interval, early, anchor, midnight).value
         <= Resample(candles, interval, late, anchor, midnight).value
  {
    hide Selected, Grid.Edge, Grid.Index, CollectSpan;
    var full := Selected(candles, late);
    SelectedElements(candles, late);
    var n := SelectedPrefix(candles, early, late);
    if n > 0 {
      SpanPrefix(Grid(AnchorOf(full, anchor, midnight), interval), full, n);
    }
  }

  // ----- the bucket dictionary -----

  lemma GroupEmpty(g: Grid, s: seq<Candle>, b: int)
    requires g.width > 0
    requires forall i :: 0 <= i < |s| ==> g.Index(s[i]) != b
    ensures Group(g, s, b) == []
  {
    WithinEmpty(g, s, b, b + 1);
  }

  lemma GroupAppend(g: Grid, s: seq<Candle>, x: Candle, b: int)
    requires g.width > 0
    ensures Group(g, s + [x], b) == Group(g, s, b) + (if g.Index(x) == b then [x] else [])
  {
    hide Grid.Edge, Grid.Index;
    WithinConcat(g, s, [x], b, b + 1);
  }

  /** `keys` are the bucket numbers met in `s`, in order, and `buckets` holds their candles. */
  ghost predicate Filed(g: Grid, s: seq<Candle>, buckets: map<int, seq<Candle>>, keys: seq<int>)
    requires g.width > 0
  {
    && Increasing(keys)
    && (forall b :: b in buckets <==> b in keys)
    && (forall b :: b in keys ==> buckets[b] == Group(g, s, b))
    && (forall i :: 0 <= i < |s| ==> g.Index(s[i]) in keys)
    && (keys == [] <==> s == [])
    && (s != [] ==> keys[0] == g.Index(s[0]) && keys[|keys| - 1] == g.Index(s[|s| - 1]))
  }

  /** Filing one more candle, in a bucket already met or in a new one. */
  lemma FileCandle(g: Grid, s: seq<Candle>, x: Candle, buckets: map<int, seq<Candle>>, keys: seq<int>)
    requires g.width > 0 && Filed(g, s, buckets, keys)
    requires s != [] ==> g.Index(s[|s| - 1]) <= g.Index(x)
    ensures var b := g.Index(x);
      if b in buckets then Filed(g, s + [x], buckets[b := buckets[b] + [x]], keys)
      else Filed(g, s + [x], buckets[b := [x]], keys + [b])
  {
    hide Grid.Edge, Grid.Index, Group;
    var b := g.Index(x);
    forall c ensures Group(g, s + [x], c) == Group(g, s, c) + (if b == c then [x] else []) {
      GroupAppend(g, s, x, c);
    }
    if b in buckets {
      assert b == keys[|keys| - 1] by { var i :| 0 <= i < |keys| && keys[i] == b; }
    } else {
      GroupEmpty(g, s, b);
      var keys', buckets' := keys + [b], buckets[b := [x]];
      assert forall c :: c in keys' <==> c in keys || c == b;
      assert keys'[0] == if s == [] then b else keys[0];
      assert (s + [x])[0] == if s == [] then x else s[0];
      assert Increasing(keys');
    }
  }

  /** Files every candle under its bucket, refusing one that crosses a boundary. `keys` is
      the order in which buckets first appeared. */
  method FillBuckets(g: Grid, selected: seq<Candle>)
    returns (ok: bool, buckets: map<int, seq<Candle>>, keys: seq<int>)
    requires g.width > 0 && AllValid(selected) && NonOverlapping(selected)
    ensures ok <==> AllFit(g, selected)
    ensures ok ==> Filed(g, selected, buckets, keys)
  {
    hide Grid.Edge, Grid.Index, Filed;
    buckets, keys := map[], [];
    NothingFiled(g);
    assert selected[..0] == [];
    for i := 0 to |selected|
      invariant AllFit(g, selected[..i])
      invariant Filed(g, selected[..i], buckets, keys)
    {
      var candle := selected[i];
      var index := g.Index(candle);
      assert selected[..i + 1] == selected[..i] + [candle];
      if candle.end > g.Edge(index + 1) {
        assert !g.Fits(selected[i]);
        return false, buckets, keys;
      }
      if i > 0 {
        SpacedApart(selected, i - 1, i);
        IndexMonotone(g, selected[i - 1], candle);
      }
      FileCandle(g, selected[..i], candle, buckets, keys);
      if index in buckets {
        buckets := buckets[index := buckets[index] + [candle]];
      } else {
        buckets, keys := buckets[index := [candle]], keys + [index];
      }
    }
    assert selected[..|selected|] == selected;
    ok := true;
  }

  lemma NothingFiled(g: Grid)
    requires g.width > 0
    ensures Filed(g, [], map[], [])
  {
  }

  /** Walks the buckets in sorted order and keeps the exactly covered ones. */
  method EmitBuckets(g: Grid, selected: seq<Candle>, buckets: map<int, seq<Candle>>, keys: seq<int>)
    returns (result: seq<Candle>)
    requires g.width > 0 && selected != [] && Filed(g, selected, buckets, keys)
    ensures result == CollectSpan(g, selected)
  {
    hide Grid.Edge, Grid.Index, Group, Aggregate, Collect, Increasing, Sort;
    SortIncreasing(keys);
    var sorted := Sort(IntLeq, keys);
    ghost var lo := keys[0];
    result := [];
    CollectNone(g, selected, lo);
    for i := 0 to |sorted|
      invariant result == Collect(g, selected, lo, if i == 0 then lo else sorted[i - 1] + 1)
    {
      var b := sorted[i];
      EmitStep(g, selected, keys, i);
      var group := buckets[b];
      if Covers(group, g.Edge(b), g.Edge(b + 1)) {
        result := result + [Aggregate(group, g.Edge(b), g.Edge(b + 1))];
      }
    }
  }

  lemma EmitStep(g: Grid, s: seq<Candle>, keys: seq<int>, i: nat)
    requires g.width > 0 && i < |keys| && Increasing(keys)
    requires forall k :: 0 <= k < |s| ==> g.Index(s[k]) in keys
    ensures Collect(g, s, keys[0], keys[i] + 1)
         == Collect(g, s, keys[0], if i == 0 then keys[0] else keys[i - 1] + 1) + Emit(g, s, keys[i])
  {
    hide Grid.Edge, Grid.Index, Emit, Collect;
    var mid := if i == 0 then keys[0] else keys[i - 1] + 1;
    KeysApart(keys, i);
    SkipKeys(g, s, keys, keys[0], mid, keys[i]);
    CollectOne(g, s, keys[0], keys[i]);
  }

  /** No key lies between two neighbours. */
  lemma KeysApart(keys: seq<int>, i: nat)
    requires Increasing(keys) && i < |keys|
    ensures var mid := if i == 0 then keys[0] else keys[i - 1] + 1;
      keys[0] <= mid <= keys[i] && forall k :: 0 <= k < |keys| ==> !(mid <= keys[k] < keys[i])
  {
    forall k | 0 <= k < |keys| ensures k < i ==> keys[k] < (if i == 0 then keys[0] else keys[i - 1] + 1) {
      if k < i - 1 { assert keys[k] < keys[i - 1]; }
    }
  }

  lemma CollectNone(g: Grid, s: seq<Candle>, lo: int)
    requires g.width > 0
    ensures Collect(g, s, lo, lo) == []
  {
  }

  lemma CollectOne(g: Grid, s: seq<Candle>, lo: int, b: int)
    requires g.width > 0 && lo <= b
    ensures Collect(g, s, lo, b + 1) == Collect(g, s, lo, b) + Emit(g, s, b)
  {
  }

  lemma SkipKeys(g: Grid, s: seq<Candle>, keys: seq<int>, lo: int, mid: int, hi: int)
    requires g.width > 0 && lo <= mid <= hi
    requires forall i :: 0 <= i < |s| ==> g.Index(s[i]) in keys
    requires forall i :: 0 <= i < |keys| ==> !(mid <= keys[i] < hi)
    ensures Collect(g, s, lo, hi) == Collect(g, s, lo, mid)
  {
    hide Grid.Edge, Grid.Index;
    forall i | 0 <= i < |s| ensures !(mid <= g.Index(s[i]) < hi) {
      assert g.Index(s[i]) in keys;
    }
    SkipBuckets(g, s, lo, mid, hi);
  }

  lemma {:induction false} SkipBuckets(g: Grid, s: seq<Candle>, lo: int, mid: int, hi: int)
    requires g.width > 0 && lo <= mid <= hi
    requires forall i :: 0 <= i < |s| ==> !(mid <= g.Index(s[i]) < hi)
    ensures Collect(g, s, lo, hi) == Collect(g, s, lo, mid)
    decreases hi - mid
  {
    hide Grid.Edge, Grid.Index, Emit, Collect;
    if mid < hi {
      SkipBuckets(g, s, lo, mid, hi - 1);
      CollectOne(g, s, lo, hi - 1);
      EmitNothing(g, s, hi - 1);
    }
  }

  lemma EmitNothing(g: Grid, s: seq<Candle>, b: int)
    requires g.width > 0 && forall i :: 0 <= i < |s| ==> !(b <= g.Index(s[i]) < b + 1)
    ensures Emit(g, s, b) == []
  {
    hide Grid.Edge, Grid.Index;
    WithinEmpty(g, s, b, b + 1);
  }

  /** The resampling operation, step by step, computes exactly the resampled value. */
  method ResampleCompleted(
    candles: seq<Candle>, interval: int, asOf: int, anchor: Option<int>, midnight: Candle -> int)
    returns (r: Result<seq<Candle>>)
    requires AllValid(candles)
    ensures r == Resample(candles, interval, asOf, anchor, midnight)
  {
    hide Grid.Edge, Grid.Index, Selected, CollectSpan;
    if interval <= 0 { return Err("resampling interval must be positive"); }
    var completed := Completed(candles, asOf);
    if completed.Err? { return Err("completed candles overlap"); }
    var selected := completed.value;
    if selected == [] { return Ok([]); }
    SelectedElements(candles, asOf);
    var g := Grid(AnchorOf(selected, anchor, midnight), interval);
    var ok, buckets, keys := FillBuckets(g, selected);
    if !ok { return Err("source candle crosses a resampling bucket boundary"); }
    var result := EmitBuckets(g, selected, buckets, keys);
    return Ok(result);
  }
}
