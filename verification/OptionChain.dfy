/** Normalizing a provider option chain: change in open interest is derived only from a prior
    accepted snapshot whose leg is unambiguous, strictly earlier and recent. */
module OptionChain {
  import opened Outcomes
  import opened Ordering

  datatype OptionType = Call | Put

  datatype DataSource = DhanRest | OtherSource(name: string)

  /** Microseconds since the epoch; a naive timestamp names no instant. */
  datatype Instant = Aware(micros: int) | Naive(micros: int)

  datatype Key = Key(strike: real, optionType: OptionType)

  datatype Quote = Quote(
    securityId: string, key: Key, expiry: Instant, observedAt: Instant, openInterest: Option<int>,
    change: Option<int>, changeSource: Option<string>, changeInterval: Option<real>)

  datatype Listing = Listing(key: Key, securityId: string)

  datatype Contract = Contract(contractKey: string, expiry: Instant, options: seq<Listing>)

  datatype Snapshot = Snapshot(
    snapshotId: string, sequence: int, source: DataSource, sourceTimestamp: Instant, contract: Contract, chain: seq<Quote>)

  /** The part of an accepted snapshot that later snapshots may refer to. */
  datatype Previous = Previous(
    snapshotId: string, sequence: int, source: DataSource, sourceTimestamp: Instant, contractKey: string, chain: seq<Quote>)

  function AsPrevious(s: Snapshot): Previous {
    Previous(s.snapshotId, s.sequence, s.source, s.sourceTimestamp, s.contract.contractKey, s.chain)
  }

  function Seconds(micros: int): real {
    (micros as real) / 1000000.0
  }

  /** A positive interval within the limit, in seconds. */
  function StrictInterval(current: Instant, previous: Instant, limit: int): Option<real> {
    if current.Naive? || previous.Naive? then None
    else if current.micros - previous.micros <= 0 || current.micros - previous.micros > limit then None
    else Some(Seconds(current.micros - previous.micros))
  }

  predicate IsSpace(c: char) {
    || c == ' ' || '\t' <= c <= '\r' || '\U{1C}' <= c <= '\U{1F}' || c == '\U{85}' || c == '\U{A0}' || c == '\U{1680}'
    || '\U{2000}' <= c <= '\U{200A}' || c == '\U{2028}' || c == '\U{2029}' || c == '\U{202F}' || c == '\U{205F}' || c == '\U{3000}'
  }

  /** Nothing is left after stripping white space. */
  predicate Blank(s: string) {
    forall i :: 0 <= i < |s| ==> IsSpace(s[i])
  }

  // ----- prior legs -----

  /** What the producer is told about the snapshot under construction. */
  datatype Build = Build(contract: Contract, observedAt: Instant, sequence: int, source: DataSource, previous: Option<Previous>, limit: int)

  predicate PreviousUsable(b: Build) {
    && b.previous.Some?
    && !Blank(b.previous.value.snapshotId)
    && b.source == DhanRest && b.previous.value.source == DhanRest
    && b.previous.value.contractKey == b.contract.contractKey
    && b.previous.value.sequence < b.sequence
    && StrictInterval(b.observedAt, b.previous.value.sourceTimestamp, b.limit).Some?
  }

  /** The legs under a key that are recent enough to serve as a baseline. */
  function Candidates(b: Build, chain: seq<Quote>, key: Key): seq<Quote> {
    if chain == [] then []
    else
      var q := chain[|chain| - 1];
      Candidates(b, chain[..|chain| - 1], key)
      + if q.key == key && StrictInterval(b.observedAt, q.observedAt, b.limit).Some? then [q] else []
  }

  /** The one candidate leg, if there is exactly one. */
  function PriorLeg(b: Build, key: Key): Option<Quote> {
    if !PreviousUsable(b) then None
    else
      var candidates := Candidates(b, b.previous.value.chain, key);
      if |candidates| == 1 then Some(candidates[0]) else None
  }

  lemma {:induction false} CandidatesMeaning(b: Build, chain: seq<Quote>, key: Key)
    ensures forall q :: q in Candidates(b, chain, key) <==>
      q in chain && q.key == key && StrictInterval(b.observedAt, q.observedAt, b.limit).Some?
  {
    if chain != [] {
      CandidatesMeaning(b, chain[..|chain| - 1], key);
      assert chain == chain[..|chain| - 1] + [chain[|chain| - 1]];
    }
  }

  ghost predicate Indexed(b: Build, chain: seq<Quote>, compatible: map<Key, (Quote, real)>, ambiguous: set<Key>) {
    forall key :: var candidates := Candidates(b, chain, key);
      && (key in compatible <==> |candidates| == 1)
      && (key in compatible ==> compatible[key].0 == candidates[0] && Some(compatible[key].1) == StrictInterval(b.observedAt, candidates[0].observedAt, b.limit))
      && (key in ambiguous <==> |candidates| > 1)
  }

  lemma CandidatesStep(b: Build, chain: seq<Quote>, i: nat, key: Key)
    requires i < |chain|
    ensures Candidates(b, chain[..i + 1], key) == Candidates(b, chain[..i], key)
      + if chain[i].key == key && StrictInterval(b.observedAt, chain[i].observedAt, b.limit).Some? then [chain[i]] else []
  {
    assert chain[..i + 1][..i] == chain[..i];
  }

  /** A prior leg and its interval to the chain under construction. */
  ghost predicate IndexedLeg(b: Build, key: Key, leg: (Quote, real)) {
    PriorLeg(b, key) == Some(leg.0) && StrictInterval(b.observedAt, leg.0.observedAt, b.limit) == Some(leg.1)
  }

  /** The indexed prior legs: a key maps to its leg exactly when one recent leg carries it. */
  method CompatiblePreviousQuotes(b: Build) returns (compatible: map<Key, (Quote, real)>)
    ensures forall key :: key in compatible <==> PriorLeg(b, key).Some?
    ensures forall key :: key in compatible ==> IndexedLeg(b, key, compatible[key])
  {
    hide Candidates, StrictInterval;
    compatible := map[];
    if !PreviousUsable(b) { return; }
    var chain := b.previous.value.chain;
    var ambiguous: set<Key> := {};
    NothingIndexed(b);
    assert chain[..0] == [];
    for i := 0 to |chain|
      invariant Indexed(b, chain[..i], compatible, ambiguous)
    {
      var quote := chain[i];
      var interval := StrictInterval(b.observedAt, quote.observedAt, b.limit);
      forall key ensures Candidates(b, chain[..i + 1], key) == Candidates(b, chain[..i], key)
        + if quote.key == key && interval.Some? then [quote] else [] { CandidatesStep(b, chain, i, key); }
      if interval.None? || quote.key in ambiguous {
        continue;
      }
      if quote.key in compatible {
        compatible := compatible - {quote.key};
        ambiguous := ambiguous + {quote.key};
        continue;
      }
      compatible := compatible[quote.key := (quote, interval.value)];
    }
    assert chain[..|chain|] == chain;
  }

  lemma NothingIndexed(b: Build)
    ensures Indexed(b, [], map[], {})
  {
  }

  // ----- building the chain -----

  datatype Leg = Leg(securityId: string, openInterest: Option<int>)

  /** One strike of the provider's chain; numerically equal strikes may repeat. */
  datatype Row = Row(strike: real, call: Option<Leg>, put: Option<Leg>)

  predicate Listed(contract: Contract, strike: real) {
    exists i :: 0 <= i < |contract.options| && contract.options[i].key.strike == strike
  }

  /** A leg's quote; its change is derived only against the same security and expiry. */
  function QuoteOf(b: Build, key: Key, leg: Leg): Quote {
    var prior := PriorLeg(b, key);
    var bare := Quote(leg.securityId, key, b.contract.expiry, b.observedAt, leg.openInterest, None, None, None);
    if prior.Some? && leg.securityId != "" && prior.value.securityId == leg.securityId
       && prior.value.expiry == b.contract.expiry && prior.value.openInterest.Some? && leg.openInterest.Some?
    then bare.(
      change := Some(leg.openInterest.value - prior.value.openInterest.value),
      changeSource := Some(b.previous.value.snapshotId),
      changeInterval := StrictInterval(b.observedAt, prior.value.observedAt, b.limit))
    else bare
  }

  function SideQuotes(b: Build, key: Key, leg: Option<Leg>): seq<Quote> {
    if leg.None? then [] else [QuoteOf(b, key, leg.value)]
  }

  function RowQuotes(b: Build, row: Row): seq<Quote> {
    if !Listed(b.contract, row.strike) then []
    else SideQuotes(b, Key(row.strike, Call), row.call) + SideQuotes(b, Key(row.strike, Put), row.put)
  }

  function ChainQuotes(b: Build, rows: seq<Row>): seq<Quote> {
    if rows == [] then [] else ChainQuotes(b, rows[..|rows| - 1]) + RowQuotes(b, rows[|rows| - 1])
  }

  predicate QuoteLeq(a: Quote, b: Quote) {
    a.key.strike < b.key.strike || (a.key.strike == b.key.strike && (a.key.optionType == Call || b.key.optionType == Put))
  }

  function Normalize(b: Build, rows: seq<Row>): Result<seq<Quote>> {
    if b.limit <= 0 then Err("max_change_oi_interval must be positive") else Ok(Sort(QuoteLeq, ChainQuotes(b, rows)))
  }

  /** The normalizing loop: what it computes from the indexed prior legs is the chain in which
      every listed leg carries the change against its one candidate baseline. */
  method NormalizeOptionChain(b: Build, rows: seq<Row>) returns (r: Result<seq<Quote>>)
    ensures r == Normalize(b, rows)
  {
    hide PriorLeg, StrictInterval, Sort;
    if b.limit <= 0 { return Err("max_change_oi_interval must be positive"); }
    var compatible := CompatiblePreviousQuotes(b);
    var quotes: seq<Quote> := [];
    assert rows[..0] == [];
    for i := 0 to |rows|
      invariant quotes == ChainQuotes(b, rows[..i])
    {
      assert rows[..i + 1][..i] == rows[..i];
      var row := rows[i];
      if Listed(b.contract, row.strike) {
        var call := NormalizeSide(b, compatible, Key(row.strike, Call), row.call);
        var put := NormalizeSide(b, compatible, Key(row.strike, Put), row.put);
        quotes := quotes + call + put;
      }
    }
    assert rows[..|rows|] == rows;
    r := Ok(Sort(QuoteLeq, quotes));
  }

  method NormalizeSide(b: Build, compatible: map<Key, (Quote, real)>, key: Key, leg: Option<Leg>) returns (r: seq<Quote>)
    requires key in compatible <==> PriorLeg(b, key).Some?
    requires key in compatible ==> IndexedLeg(b, key, compatible[key])
    ensures r == SideQuotes(b, key, leg)
  {
    if leg.None? { return []; }
    var l := leg.value;
    var quote := Quote(l.securityId, key, b.contract.expiry, b.observedAt, l.openInterest, None, None, None);
    if key in compatible {
      var (prior, interval) := compatible[key];
      if l.securityId != "" && prior.securityId == l.securityId && prior.expiry == b.contract.expiry
         && prior.openInterest.Some? && l.openInterest.Some? {
        quote := quote.(change := Some(l.openInterest.value - prior.openInterest.value),
          changeSource := Some(b.previous.value.snapshotId), changeInterval := Some(interval));
      }
    }
    r := [quote];
  }

  // ----- what a built chain holds -----

  /** A quote as the producer makes them: bare, or derived from the one candidate leg. */
  ghost predicate Produced(b: Build, q: Quote) {
    && q.observedAt == b.observedAt && q.expiry == b.contract.expiry
    && (q.change.None? ==> q.changeSource.None? && q.changeInterval.None?)
    && (q.change.Some? ==>
          && PriorLeg(b, q.key).Some?
          && var p := PriorLeg(b, q.key).value;
             && p.securityId == q.securityId && p.expiry == q.expiry && p.openInterest.Some? && q.openInterest.Some?
             && q.change.value == q.openInterest.value - p.openInterest.value
             && q.changeSource == Some(b.previous.value.snapshotId)
             && q.changeInterval == StrictInterval(b.observedAt, p.observedAt, b.limit))
  }

  lemma {:induction false} ChainProduced(b: Build, rows: seq<Row>)
    ensures forall q :: q in ChainQuotes(b, rows) ==> Produced(b, q)
  {
    hide PriorLeg, StrictInterval;
    if rows != [] { ChainProduced(b, rows[..|rows| - 1]); }
  }

  lemma QuoteLeqOrders()
    ensures TotalPreorder(QuoteLeq)
  {
  }

  lemma NormalizedProduced(b: Build, rows: seq<Row>)
    requires Normalize(b, rows).Ok?
    ensures forall q :: q in Normalize(b, rows).value ==> Produced(b, q)
  {
    hide Produced;
    ChainProduced(b, rows);
    QuoteLeqOrders();
    SortCorrect(QuoteLeq, ChainQuotes(b, rows));
    forall q | q in Normalize(b, rows).value ensures Produced(b, q) {
      assert q in multiset(Sort(QuoteLeq, ChainQuotes(b, rows)));
      assert q in multiset(ChainQuotes(b, rows));
    }
  }
}
