/** The option chain spelled out: which quotes a normalized chain holds, when and how much change a
    leg carries, and for every issue code exactly when the chain check reports it. */
module ChainValues {
  import opened Outcomes
  import opened Ordering
  import opened OptionChain
  import opened ChangeOiProvenance

  // ----- intervals and blanks -----

  /** `later` comes after `earlier`, by at most `limit` microseconds. */
  ghost predicate Within(later: Instant, earlier: Instant, limit: int) {
    later.Aware? && earlier.Aware? && 1 <= later.micros - earlier.micros <= limit
  }

  lemma IntervalLaw(current: Instant, previous: Instant, limit: int)
    ensures StrictInterval(current, previous, limit).Some? <==> Within(current, previous, limit)
    ensures Within(current, previous, limit) ==>
      StrictInterval(current, previous, limit).value * 1_000_000.0 == (current.micros - previous.micros) as real
  {
  }

  /** White space by code point. */
  ghost const SPACES: set<int> :=
    {9, 10, 11, 12, 13, 28, 29, 30, 31, 32, 133, 160, 5760, 8192, 8193, 8194, 8195, 8196, 8197, 8198, 8199, 8200, 8201, 8202,
     8232, 8233, 8239, 8287, 12288}

  lemma SpaceLaw(c: char)
    ensures IsSpace(c) <==> c as int in SPACES
  {
  }

  lemma BlankLaw(s: string)
    ensures Blank(s) <==> forall c :: c in s ==> c as int in SPACES
  {
    hide IsSpace;
    forall c ensures IsSpace(c) <==> c as int in SPACES { SpaceLaw(c); }
    if Blank(s) {
      forall c | c in s ensures IsSpace(c) { var i :| 0 <= i < |s| && s[i] == c; }
    }
    if forall c :: c in s ==> c as int in SPACES {
      forall i | 0 <= i < |s| ensures IsSpace(s[i]) { assert s[i] in s; }
    }
  }

  // ----- the baseline of a leg -----

  /** Leg `i` of the prior snapshot carries the key and is recent. */
  ghost predicate RecentLeg(b: Build, chain: seq<Quote>, key: Key, i: int) {
    0 <= i < |chain| && chain[i].key == key && Within(b.observedAt, chain[i].observedAt, b.limit)
  }

  ghost predicate OnlyLeg(b: Build, chain: seq<Quote>, key: Key, i: int) {
    RecentLeg(b, chain, key, i) && forall k :: RecentLeg(b, chain, key, k) ==> k == i
  }

  lemma {:induction false} NoCandidate(b: Build, chain: seq<Quote>, key: Key)
    ensures Candidates(b, chain, key) == [] <==> forall k :: !RecentLeg(b, chain, key, k)
  {
    hide StrictInterval, Within;
    if chain != [] {
      var n := |chain| - 1;
      NoCandidate(b, chain[..n], key);
      IntervalLaw(b.observedAt, chain[n].observedAt, b.limit);
      forall k | k != n ensures RecentLeg(b, chain, key, k) <==> RecentLeg(b, chain[..n], key, k) {
        if 0 <= k < n { assert chain[..n][k] == chain[k]; }
      }
      if forall k :: !RecentLeg(b, chain, key, k) {
        assert !RecentLeg(b, chain, key, n);
        assert forall k :: !RecentLeg(b, chain[..n], key, k) by {
          forall k ensures !RecentLeg(b, chain[..n], key, k) {}
        }
      }
    }
  }

  /** There is one candidate exactly when one leg alone is recent under the key. */
  lemma {:induction false} OneCandidate(b: Build, chain: seq<Quote>, key: Key, i: int)
    ensures OnlyLeg(b, chain, key, i) ==> Candidates(b, chain, key) == [chain[i]]
    ensures |Candidates(b, chain, key)| == 1 ==> exists k :: OnlyLeg(b, chain, key, k)
  {
    hide StrictInterval, Within, Candidates;
    if chain == [] {
      NoLegs(b, key);
    } else {
      var n := |chain| - 1;
      var before := chain[..n];
      LastCandidate(b, chain, key);
      IntervalLaw(b.observedAt, chain[n].observedAt, b.limit);
      forall k | k != n ensures RecentLeg(b, chain, key, k) <==> RecentLeg(b, before, key, k) {
        if 0 <= k < n { assert before[k] == chain[k]; }
      }
      OneCandidate(b, before, key, i);
      NoCandidate(b, before, key);
      if RecentLeg(b, chain, key, n) {
        if OnlyLeg(b, chain, key, i) {
          assert forall k :: !RecentLeg(b, before, key, k);
        }
        if |Candidates(b, chain, key)| == 1 { assert OnlyLeg(b, chain, key, n); }
      } else if |Candidates(b, chain, key)| == 1 {
        var k :| OnlyLeg(b, before, key, k);
        assert OnlyLeg(b, chain, key, k);
      }
    }
  }

  lemma NoLegs(b: Build, key: Key)
    ensures Candidates(b, [], key) == []
  {
  }

  lemma LastCandidate(b: Build, chain: seq<Quote>, key: Key)
    requires chain != []
    ensures var last := chain[|chain| - 1];
      Candidates(b, chain, key) == Candidates(b, chain[..|chain| - 1], key)
        + if last.key == key && StrictInterval(b.observedAt, last.observedAt, b.limit).Some? then [last] else []
  {
  }

  /** The prior snapshot may be measured against: named, of the same provider and contract, earlier in
      sequence and recent. */
  ghost predicate Comparable(b: Build, p: Previous) {
    && (exists c :: c in p.snapshotId && c as int !in SPACES)
    && b.source == DhanRest && p.source == DhanRest && p.contractKey == b.contract.contractKey && p.sequence < b.sequence
    && Within(b.observedAt, p.sourceTimestamp, b.limit)
  }

  /** Leg `i` of the prior snapshot is the baseline of this leg. */
  ghost predicate Baseline(b: Build, key: Key, leg: Leg, i: int) {
    && b.previous.Some? && Comparable(b, b.previous.value)
    && 0 <= i < |b.previous.value.chain| && OnlyLeg(b, b.previous.value.chain, key, i)
    && leg.securityId != "" && b.previous.value.chain[i].securityId == leg.securityId
    && b.previous.value.chain[i].expiry == b.contract.expiry
    && leg.openInterest.Some? && b.previous.value.chain[i].openInterest.Some?
  }

  /** A quote of a leg: its own data, and the change against a baseline if there is one. */
  ghost predicate Quotes(b: Build, key: Key, leg: Leg, q: Quote) {
    && q.securityId == leg.securityId && q.key == key && q.expiry == b.contract.expiry && q.observedAt == b.observedAt
    && q.openInterest == leg.openInterest
    && (q.change.Some? <==> exists i :: Baseline(b, key, leg, i))
    && (q.change.None? ==> q.changeSource.None? && q.changeInterval.None?)
    && forall i :: Baseline(b, key, leg, i) ==>
         var p := b.previous.value.chain[i];
         && q.change == Some(leg.openInterest.value - p.openInterest.value)
         && q.changeSource == Some(b.previous.value.snapshotId)
         && q.changeInterval.Some? && q.changeInterval.value * 1_000_000.0 == (b.observedAt.micros - p.observedAt.micros) as real
  }

  lemma UsableLaw(b: Build)
    ensures PreviousUsable(b) <==> b.previous.Some? && Comparable(b, b.previous.value)
  {
    hide Blank, StrictInterval;
    if b.previous.Some? {
      BlankLaw(b.previous.value.snapshotId);
      IntervalLaw(b.observedAt, b.previous.value.sourceTimestamp, b.limit);
    }
  }

  lemma QuoteLaw(b: Build, key: Key, leg: Leg)
    ensures Quotes(b, key, leg, QuoteOf(b, key, leg))
  {
    hide PreviousUsable, StrictInterval, Candidates, Comparable, RecentLeg, Within;
    var q := QuoteOf(b, key, leg);
    UsableLaw(b);
    if PreviousUsable(b) {
      var chain := b.previous.value.chain;
      forall i | Baseline(b, key, leg, i)
        ensures PriorLeg(b, key) == Some(chain[i])
        ensures StrictInterval(b.observedAt, chain[i].observedAt, b.limit).Some?
        ensures StrictInterval(b.observedAt, chain[i].observedAt, b.limit).value * 1_000_000.0 == (b.observedAt.micros - chain[i].observedAt.micros) as real
      {
        OneCandidate(b, chain, key, i);
        RecentWithin(b, chain, key, i);
      }
      if q.change.Some? {
        OneCandidate(b, chain, key, 0);
        var i :| OnlyLeg(b, chain, key, i);
        RecentWithin(b, chain, key, i);
        OneCandidate(b, chain, key, i);
        assert Baseline(b, key, leg, i);
      }
    }
  }

  lemma RecentWithin(b: Build, chain: seq<Quote>, key: Key, i: int)
    requires RecentLeg(b, chain, key, i)
    ensures 0 <= i < |chain| && b.observedAt.Aware? && chain[i].observedAt.Aware?
    ensures StrictInterval(b.observedAt, chain[i].observedAt, b.limit).Some?
    ensures StrictInterval(b.observedAt, chain[i].observedAt, b.limit).value * 1_000_000.0 == (b.observedAt.micros - chain[i].observedAt.micros) as real
  {
    IntervalLaw(b.observedAt, chain[i].observedAt, b.limit);
  }

  // ----- the normalized chain -----

  /** The leg of a row on one side, if its strike is listed in the contract. */
  ghost function LegOf(b: Build, row: Row, side: OptionType): Option<Leg> {
    if exists i :: 0 <= i < |b.contract.options| && b.contract.options[i].key.strike == row.strike
    then match side case Call => row.call case Put => row.put
    else None
  }

  ghost function CountLegs(b: Build, rows: seq<Row>): nat {
    if rows == [] then 0
    else CountLegs(b, rows[1..]) + (if LegOf(b, rows[0], Call).Some? then 1 else 0) + (if LegOf(b, rows[0], Put).Some? then 1 else 0)
  }

  /** Some row's leg of this side has this quote. */
  ghost predicate FromRow(b: Build, rows: seq<Row>, i: int, side: OptionType, q: Quote) {
    0 <= i < |rows| && LegOf(b, rows[i], side).Some? && q.key == Key(rows[i].strike, side) && Quotes(b, q.key, LegOf(b, rows[i], side).value, q)
  }

  lemma {:induction false} CountLast(b: Build, rows: seq<Row>, row: Row)
    ensures CountLegs(b, rows + [row])
         == CountLegs(b, rows) + (if LegOf(b, row, Call).Some? then 1 else 0) + (if LegOf(b, row, Put).Some? then 1 else 0)
  {
    hide LegOf;
    if rows == [] {
      assert [] + [row] == [row] && [row][1..] == [];
    } else {
      CountLast(b, rows[1..], row);
      assert (rows + [row])[1..] == rows[1..] + [row];
    }
  }

  lemma RowLaw(b: Build, row: Row)
    ensures |RowQuotes(b, row)| == (if LegOf(b, row, Call).Some? then 1 else 0) + (if LegOf(b, row, Put).Some? then 1 else 0)
    ensures forall side :: LegOf(b, row, side).Some? ==> QuoteOf(b, Key(row.strike, side), LegOf(b, row, side).value) in RowQuotes(b, row)
    ensures forall q :: q in RowQuotes(b, row) ==>
      LegOf(b, row, q.key.optionType).Some? && q == QuoteOf(b, Key(row.strike, q.key.optionType), LegOf(b, row, q.key.optionType).value)
  {
    hide PriorLeg, StrictInterval;
    assert Listed(b.contract, row.strike) <==> exists i :: 0 <= i < |b.contract.options| && b.contract.options[i].key.strike == row.strike;
  }

  lemma {:induction false} ChainLaw(b: Build, rows: seq<Row>)
    ensures |ChainQuotes(b, rows)| == CountLegs(b, rows)
    ensures forall i, side :: 0 <= i < |rows| && LegOf(b, rows[i], side).Some? ==>
      QuoteOf(b, Key(rows[i].strike, side), LegOf(b, rows[i], side).value) in ChainQuotes(b, rows)
    ensures forall q :: q in ChainQuotes(b, rows) ==> exists i :: FromRow(b, rows, i, q.key.optionType, q)
  {
    hide QuoteOf, LegOf, RowQuotes, Quotes;
    if rows != [] {
      var n := |rows| - 1;
      ChainLaw(b, rows[..n]);
      RowLaw(b, rows[n]);
      CountLast(b, rows[..n], rows[n]);
      assert rows == rows[..n] + [rows[n]];
      assert forall i :: 0 <= i < n ==> rows[..n][i] == rows[i];
      forall q | q in ChainQuotes(b, rows) ensures exists i :: FromRow(b, rows, i, q.key.optionType, q) {
        if q in ChainQuotes(b, rows[..n]) {
          var i :| FromRow(b, rows[..n], i, q.key.optionType, q);
          assert FromRow(b, rows, i, q.key.optionType, q);
        } else {
          assert q in RowQuotes(b, rows[n]);
          OwnKey(b, rows[n], q);
          assert FromRow(b, rows, n, q.key.optionType, q);
        }
      }
    }
  }

  lemma OwnKey(b: Build, row: Row, q: Quote)
    requires LegOf(b, row, q.key.optionType).Some?
    requires q == QuoteOf(b, Key(row.strike, q.key.optionType), LegOf(b, row, q.key.optionType).value)
    ensures q.key == Key(row.strike, q.key.optionType)
    ensures Quotes(b, q.key, LegOf(b, row, q.key.optionType).value, q)
  {
    hide LegOf, QuoteOf;
    QuoteLaw(b, Key(row.strike, q.key.optionType), LegOf(b, row, q.key.optionType).value);
  }

  /** Strikes ascend, and at one strike the call comes before the put. */
  ghost predicate StrikeOrder(r: seq<Quote>) {
    forall i, k :: 0 <= i < k < |r| ==>
      && r[i].key.strike <= r[k].key.strike
      && (r[i].key.strike == r[k].key.strike ==> !(r[i].key.optionType == Put && r[k].key.optionType == Call))
  }

  /** Every leg of a listed strike has its quote. */
  ghost predicate Complete(b: Build, rows: seq<Row>, r: seq<Quote>) {
    forall i, side :: 0 <= i < |rows| && LegOf(b, rows[i], side).Some? ==> exists q :: q in r && FromRow(b, rows, i, side, q)
  }

  /** Every quote is the quote of such a leg. */
  ghost predicate Grounded(b: Build, rows: seq<Row>, r: seq<Quote>) {
    forall q :: q in r ==> exists i :: FromRow(b, rows, i, q.key.optionType, q)
  }

  /** A normalized chain is one quote for every leg of a listed strike, in order of strike with the call
      before the put; each quote shows its leg's own data, and the change against its baseline exactly
      when it has one. */
  lemma NormalizedExactly(b: Build, rows: seq<Row>)
    ensures Normalize(b, rows).Ok? <==> b.limit > 0
    ensures Normalize(b, rows).Ok? ==>
      var r := Normalize(b, rows).value;
      |r| == CountLegs(b, rows) && Complete(b, rows, r) && Grounded(b, rows, r) && StrikeOrder(r)
  {
    hide CountLegs, Normalize, ChainQuotes, QuoteOf, StrikeOrder, Complete, Grounded;
    LimitLaw(b, rows);
    if b.limit > 0 {
      SortedChain(b, rows);
      ChainSize(b, rows);
      AllShown(b, rows);
      AllGrounded(b, rows);
    }
  }

  lemma ChainSize(b: Build, rows: seq<Row>)
    ensures |ChainQuotes(b, rows)| == CountLegs(b, rows)
  {
    hide ChainQuotes, CountLegs, FromRow, LegOf, QuoteOf;
    ChainLaw(b, rows);
  }

  lemma AllShown(b: Build, rows: seq<Row>)
    requires b.limit > 0 && Normalize(b, rows).Ok?
    ensures Complete(b, rows, Normalize(b, rows).value)
  {
    hide ChainQuotes, FromRow, LegOf, Normalize;
    forall i, side | 0 <= i < |rows| && LegOf(b, rows[i], side).Some?
      ensures exists q :: q in Normalize(b, rows).value && FromRow(b, rows, i, side, q)
    {
      LegShown(b, rows, i, side);
    }
  }

  lemma AllGrounded(b: Build, rows: seq<Row>)
    requires b.limit > 0 && Normalize(b, rows).Ok?
    ensures Grounded(b, rows, Normalize(b, rows).value)
  {
    hide ChainQuotes, FromRow, LegOf, Normalize, CountLegs, QuoteOf, StrikeOrder;
    ChainLaw(b, rows);
    SortedChain(b, rows);
  }

  lemma LimitLaw(b: Build, rows: seq<Row>)
    ensures Normalize(b, rows).Ok? <==> b.limit > 0
  {
    hide Sort, ChainQuotes;
  }

  /** Normalizing sorts the made quotes: strikes ascend, and the call comes before the put. */
  lemma SortedChain(b: Build, rows: seq<Row>)
    requires b.limit > 0
    ensures Normalize(b, rows).Ok?
    ensures var r := Normalize(b, rows).value;
      |r| == |ChainQuotes(b, rows)| && (forall q :: q in r <==> q in ChainQuotes(b, rows)) && StrikeOrder(r)
  {
    hide ChainQuotes, Sort;
    var made, r := ChainQuotes(b, rows), Normalize(b, rows).value;
    QuoteLeqOrders();
    SortCorrect(QuoteLeq, made);
    forall q ensures q in r <==> q in made { assert q in r <==> q in multiset(r); assert q in made <==> q in multiset(made); }
    forall i, k | 0 <= i < k < |r| ensures QuoteLeq(r[i], r[k]) {}
  }

  lemma LegShown(b: Build, rows: seq<Row>, i: nat, side: OptionType)
    requires b.limit > 0 && i < |rows| && LegOf(b, rows[i], side).Some? && Normalize(b, rows).Ok?
    ensures exists q :: q in Normalize(b, rows).value && FromRow(b, rows, i, side, q)
  {
    hide LegOf, Quotes, ChainQuotes, QuoteOf, Normalize;
    ChainLaw(b, rows);
    SortedChain(b, rows);
    var key, leg := Key(rows[i].strike, side), LegOf(b, rows[i], side).value;
    QuoteLaw(b, key, leg);
    KeyOfQuote(b, key, leg);
    assert QuoteOf(b, key, leg) in Normalize(b, rows).value && FromRow(b, rows, i, side, QuoteOf(b, key, leg));
  }

  lemma KeyOfQuote(b: Build, key: Key, leg: Leg)
    ensures QuoteOf(b, key, leg).key == key
  {
  }

  // ----- every issue -----

  /** The security id that the contract master gives a key: that of the last listing. */
  ghost predicate MasterListing(options: seq<Listing>, key: Key, k: int) {
    0 <= k < |options| && options[k].key == key && forall m :: k < m < |options| ==> options[m].key != key
  }

  /** The reference of a quote is looked up: the quote carries a change, names a snapshot, and the
      snapshot is of the provider that changes are derived for. */
  ghost predicate Refers(s: Snapshot, q: Quote) {
    q.change.Some? && q.changeSource.Some? && |q.changeSource.value| > 0 && s.source == DhanRest
  }

  /** An earlier quote already had this id loaded. */
  ghost predicate LoadedBefore(s: Snapshot, i: nat, id: string)
    requires i <= |s.chain|
  {
    exists j :: 0 <= j < i && Refers(s, s.chain[j]) && s.chain[j].changeSource.value == id
  }

  /** The snapshot that the reference of a quote leads to. */
  ghost predicate LeadsTo(s: Snapshot, q: Quote, loader: Loader, previous: Previous) {
    && Refers(s, q) && loader.Loader? && q.changeSource.value !in loader.failing
    && q.changeSource.value in loader.accepted && loader.accepted[q.changeSource.value] == previous
  }

  ghost predicate Foreign(s: Snapshot, q: Quote, previous: Previous)
    requires q.changeSource.Some?
  {
    || previous.snapshotId != q.changeSource.value || previous.source != DhanRest
    || previous.contractKey != s.contract.contractKey || s.sequence <= previous.sequence
  }

  /** Leg `k` of the prior snapshot is of the same security, strike, side and expiry. */
  ghost predicate SameAt(previous: Previous, q: Quote, k: int) {
    && 0 <= k < |previous.chain| && previous.chain[k].securityId == q.securityId
    && previous.chain[k].key == q.key && previous.chain[k].expiry == q.expiry
  }

  ghost predicate OnlySame(previous: Previous, q: Quote, k: int) {
    SameAt(previous, q, k) && forall m :: SameAt(previous, q, m) ==> m == k
  }

  /** The reference leads to a proper snapshot with one matching leg, `p`. */
  ghost predicate Meets(s: Snapshot, q: Quote, loader: Loader, previous: Previous, p: Quote) {
    LeadsTo(s, q, loader, previous) && !Foreign(s, q, previous) && exists k :: 0 <= k < |previous.chain| && OnlySame(previous, q, k) && previous.chain[k] == p
  }

  ghost predicate AllAware(s: Snapshot, q: Quote, previous: Previous, p: Quote) {
    s.sourceTimestamp.Aware? && q.observedAt.Aware? && previous.sourceTimestamp.Aware? && p.observedAt.Aware?
  }

  /** Both legs were observed when their snapshots were taken, the prior one first, and the declared
      interval is the time between them, to the nanosecond. */
  ghost predicate Timely(s: Snapshot, q: Quote, previous: Previous, p: Quote)
    requires AllAware(s, q, previous, p)
  {
    && q.observedAt == s.sourceTimestamp && p.observedAt == previous.sourceTimestamp
    && previous.sourceTimestamp.micros < s.sourceTimestamp.micros
    && q.changeInterval.Some?
    && var gap := (s.sourceTimestamp.micros - previous.sourceTimestamp.micros) as real / 1_000_000.0;
       gap - 0.000_000_001 <= q.changeInterval.value <= gap + 0.000_000_001
  }

  /** When quote `i` draws this code. */
  ghost predicate Reported(s: Snapshot, loader: Loader, maxAge: real, i: nat, code: Code)
    requires i < |s.chain|
  {
    var q := s.chain[i];
    match code
    case OptionChainMissing => false
    case DuplicateStrikeSide => exists j :: 0 <= j < i && s.chain[j].key == q.key
    case SecurityIdMissing => q.securityId == ""
    case DuplicateSecurityId => q.securityId != "" && exists j :: 0 <= j < i && s.chain[j].securityId == q.securityId
    case OptionNotInContractMaster => forall k :: 0 <= k < |s.contract.options| ==> s.contract.options[k].key != q.key
    case OptionSecurityIdMismatch => exists k :: MasterListing(s.contract.options, q.key, k) && s.contract.options[k].securityId != q.securityId
    case MixedExpiry => q.expiry != s.contract.expiry
    case BaselineRequired => q.change.None?
    case OrphanProvenance => q.change.None? && !(q.changeSource.None? && q.changeInterval.None?)
    case InvalidSource => q.change.Some? && s.source != DhanRest
    case InvalidProvenance =>
      && q.change.Some? && s.source == DhanRest
      && !(q.changeSource.Some? && q.changeSource.value != "" && q.changeInterval.Some? && 0.0 < q.changeInterval.value <= maxAge)
    case ReferenceUnavailable => Refers(s, q) && loader.Absent?
    case ReferenceLoadFailed =>
      Refers(s, q) && loader.Loader? && q.changeSource.value in loader.failing && !LoadedBefore(s, i, q.changeSource.value)
    case ReferenceNotAccepted =>
      && Refers(s, q) && loader.Loader?
      && (if q.changeSource.value in loader.failing then LoadedBefore(s, i, q.changeSource.value) else q.changeSource.value !in loader.accepted)
    case ReferenceMismatch => exists previous :: LeadsTo(s, q, loader, previous) && Foreign(s, q, previous)
    case PriorLegMismatch =>
      exists previous :: LeadsTo(s, q, loader, previous) && !Foreign(s, q, previous) && forall k :: !OnlySame(previous, q, k)
    case TimestampInvalid => exists previous, p :: Meets(s, q, loader, previous, p) && !AllAware(s, q, previous, p)
    case IntervalMismatch => exists previous, p :: Meets(s, q, loader, previous, p) && AllAware(s, q, previous, p) && !Timely(s, q, previous, p)
    case DeltaMismatch =>
      exists previous, p :: Meets(s, q, loader, previous, p) && AllAware(s, q, previous, p)
        && !(p.openInterest.Some? && q.openInterest.Some? && q.change == Some(q.openInterest.value - p.openInterest.value))
    case SelfReferential => q.changeSource == Some(s.snapshotId)
  }

  lemma {:induction false} MasterLaw(options: seq<Listing>, key: Key)
    ensures MasterId(options, key).None? <==> forall k :: 0 <= k < |options| ==> options[k].key != key
    ensures forall k :: MasterListing(options, key, k) ==> MasterId(options, key) == Some(options[k].securityId)
    ensures MasterId(options, key).Some? ==> exists k :: MasterListing(options, key, k)
  {
    if options != [] {
      var n := |options| - 1;
      if options[n].key == key {
        assert MasterListing(options, key, n);
      } else {
        MasterLaw(options[..n], key);
        forall k ensures MasterListing(options, key, k) <==> MasterListing(options[..n], key, k) {
          assert forall m :: 0 <= m < n ==> options[..n][m] == options[m];
        }
        if MasterId(options, key).Some? {
          var k :| MasterListing(options[..n], key, k);
          assert MasterListing(options, key, k);
        }
      }
    }
  }

  predicate OfIdentity(code: Code) {
    || code.DuplicateStrikeSide? || code.SecurityIdMissing? || code.DuplicateSecurityId?
    || code.OptionNotInContractMaster? || code.OptionSecurityIdMismatch? || code.MixedExpiry?
  }

  predicate OfProvenance(code: Code) {
    code.BaselineRequired? || code.OrphanProvenance? || code.InvalidSource? || code.InvalidProvenance?
  }

  predicate OfLoading(code: Code) {
    code.ReferenceUnavailable? || code.ReferenceLoadFailed? || code.ReferenceNotAccepted?
  }

  predicate OfPrevious(code: Code) {
    || code.ReferenceMismatch? || code.PriorLegMismatch? || code.TimestampInvalid? || code.IntervalMismatch? || code.DeltaMismatch?
  }

  lemma IdentityLaw(s: Snapshot, loader: Loader, maxAge: real, i: nat, code: Code)
    requires i < |s.chain|
    ensures var q := s.chain[i];
      var codes := IdentityCodes(s, q, KeySeen(s.chain, i, q.key), IdSeen(s.chain, i, q.securityId));
      code in codes <==> OfIdentity(code) && Reported(s, loader, maxAge, i, code)
  {
    hide MasterId, MasterListing, Refers, LeadsTo, Meets, Foreign, OnlySame, LoadedBefore;
    MasterLaw(s.contract.options, s.chain[i].key);
  }

  lemma ProvenanceLaw(s: Snapshot, loader: Loader, maxAge: real, i: nat, code: Code)
    requires i < |s.chain|
    ensures code in ProvenanceCodes(s, s.chain[i], maxAge) <==> OfProvenance(code) && Reported(s, loader, maxAge, i, code)
  {
    hide MasterListing, Refers, LeadsTo, Meets, Foreign, OnlySame, LoadedBefore;
  }

  lemma LegLaw(s: Snapshot, q: Quote, previous: Previous, p: Quote, code: Code)
    ensures code in LegCodes(s, q, previous, p) <==>
      match code
      case TimestampInvalid => !AllAware(s, q, previous, p)
      case IntervalMismatch => AllAware(s, q, previous, p) && !Timely(s, q, previous, p)
      case DeltaMismatch =>
        && AllAware(s, q, previous, p)
        && !(p.openInterest.Some? && q.openInterest.Some? && q.change == Some(q.openInterest.value - p.openInterest.value))
      case _ => false
  {
  }

  /** What the checks of one loaded reference report. */
  lemma PreviousLaw(s: Snapshot, loader: Loader, maxAge: real, i: nat, previous: Previous, code: Code)
    requires i < |s.chain| && LeadsTo(s, s.chain[i], loader, previous)
    ensures code in PreviousCodes(s, s.chain[i], s.chain[i].changeSource.value, previous) <==>
      OfPrevious(code) && Reported(s, loader, maxAge, i, code)
  {
    hide LegCodes, Matching, OnlySame, AllAware, Timely, MasterListing, LoadedBefore;
    var q := s.chain[i];
    assert forall other :: LeadsTo(s, q, loader, other) ==> other == previous;
    MatchingLaw(previous.chain, previous, q);
    if !Foreign(s, q, previous) && |Matching(previous.chain, q)| == 1 {
      var k :| OnlySame(previous, q, k);
      InChain(previous, q, k);
      var p := previous.chain[k];
      assert Meets(s, q, loader, previous, p);
      forall other, leg | Meets(s, q, loader, other, leg) ensures other == previous && leg == p {
        var m :| 0 <= m < |previous.chain| && OnlySame(previous, q, m) && previous.chain[m] == leg;
        OneIndex(previous, q, k, m);
      }
      LegLaw(s, q, previous, p, code);
    } else {
      forall k ensures !Foreign(s, q, previous) ==> !OnlySame(previous, q, k) {}
    }
  }

  lemma InChain(previous: Previous, q: Quote, k: int)
    requires OnlySame(previous, q, k)
    ensures 0 <= k < |previous.chain|
  {
  }

  lemma OneIndex(previous: Previous, q: Quote, k: int, m: int)
    requires OnlySame(previous, q, k) && OnlySame(previous, q, m)
    ensures k == m
  {
  }

  lemma SeenLaw(s: Snapshot, loader: Loader, i: nat, id: string)
    requires i <= |s.chain| && loader.Loader?
    ensures LoadSeen(s, loader, i, id) <==> LoadedBefore(s, i, id)
  {
  }

  lemma MeetsLeads(s: Snapshot, q: Quote, loader: Loader, previous: Previous, p: Quote)
    requires Meets(s, q, loader, previous, p)
    ensures LeadsTo(s, q, loader, previous)
  {
  }

  lemma ReferenceLaw(s: Snapshot, loader: Loader, maxAge: real, i: nat, code: Code)
    requires i < |s.chain|
    ensures var q := s.chain[i];
      var codes := ReferenceCodes(s, q, loader, q.changeSource.Some? && LoadSeen(s, loader, i, q.changeSource.value));
      code in codes <==> (OfLoading(code) || OfPrevious(code)) && Reported(s, loader, maxAge, i, code)
  {
    hide PreviousCodes, Foreign, OnlySame, AllAware, Timely, MasterListing, LoadedBefore, LoadSeen, Meets;
    var q := s.chain[i];
    forall previous, p | Meets(s, q, loader, previous, p) ensures LeadsTo(s, q, loader, previous) { MeetsLeads(s, q, loader, previous, p); }
    if Refers(s, q) && loader.Loader? {
      var id := q.changeSource.value;
      SeenLaw(s, loader, i, id);
      if id in loader.accepted && id !in loader.failing {
        assert LeadsTo(s, q, loader, loader.accepted[id]);
        PreviousLaw(s, loader, maxAge, i, loader.accepted[id], code);
      }
    }
  }

  /** Quote `i` draws a code exactly when the code applies to it. */
  lemma CodeLaw(s: Snapshot, loader: Loader, maxAge: real, i: nat, code: Code)
    requires i < |s.chain|
    ensures code in CodesAt(s, loader, maxAge, i) <==> Reported(s, loader, maxAge, i, code)
  {
    hide IdentityCodes, ProvenanceCodes, ReferenceCodes, KeySeen, IdSeen, LoadSeen, Refers, LeadsTo, Meets, Foreign, OnlySame,
      AllAware, Timely, MasterListing, LoadedBefore;
    IdentityLaw(s, loader, maxAge, i, code);
    ProvenanceLaw(s, loader, maxAge, i, code);
    ReferenceLaw(s, loader, maxAge, i, code);
  }

  /** The check reports exactly the codes that apply, to the quotes they apply to; an empty chain draws
      one code of its own. */
  lemma ReportedExactly(s: Snapshot, loader: Loader, maxAge: real, code: Code, i: nat)
    ensures Issue(code, i) in ChainIssues(s, loader, maxAge) <==>
      if s.chain == [] then code == OptionChainMissing && i == 0 else i < |s.chain| && Reported(s, loader, maxAge, i, code)
  {
    hide CodesAt, Reported, IssuesUpTo;
    if s.chain != [] {
      IssueFrom(s, loader, maxAge, |s.chain|, code, i);
      if i < |s.chain| { CodeLaw(s, loader, maxAge, i, code); }
    }
  }

  /** A chain is accepted exactly when it is not empty, no key and no security id repeats, every quote is
      the contract's own listing, and every change is justified. */
  lemma AcceptedExactly(s: Snapshot, loader: Loader, maxAge: real)
    ensures Accepted(s, loader, maxAge) <==>
      && s.chain != []
      && forall i :: 0 <= i < |s.chain| ==> Passes(s, loader, maxAge, i)
  {
    hide ChainIssues, Justified, CodesAt, Passes;
    if s.chain == [] {
      EmptyRefused(s, loader, maxAge);
    } else {
      if Accepted(s, loader, maxAge) {
        forall i | 0 <= i < |s.chain| ensures Passes(s, loader, maxAge, i) {
          forall code ensures code in CodesAt(s, loader, maxAge, i) ==> code.BaselineRequired? {
            ReportedExactly(s, loader, maxAge, code, i);
            CodeLaw(s, loader, maxAge, i, code);
            assert Issue(code, i).code == code;
          }
          PassesLaw(s, loader, maxAge, i);
        }
      }
      if forall i :: 0 <= i < |s.chain| ==> Passes(s, loader, maxAge, i) {
        forall issue | issue in ChainIssues(s, loader, maxAge) ensures issue.code.BaselineRequired? {
          ReportedExactly(s, loader, maxAge, issue.code, issue.quote);
          assert Issue(issue.code, issue.quote) == issue;
          CodeLaw(s, loader, maxAge, issue.quote, issue.code);
          PassesLaw(s, loader, maxAge, issue.quote);
        }
      }
    }
  }

  lemma EmptyRefused(s: Snapshot, loader: Loader, maxAge: real)
    requires s.chain == []
    ensures !Accepted(s, loader, maxAge)
  {
    assert Issue(OptionChainMissing, 0) in ChainIssues(s, loader, maxAge);
  }

  /** The quote is the contract's own listing of its key: its id and its expiry. */
  ghost predicate OwnListing(s: Snapshot, i: nat)
    requires i < |s.chain|
  {
    var q := s.chain[i];
    && q.securityId != "" && q.expiry == s.contract.expiry
    && exists k :: MasterListing(s.contract.options, q.key, k) && s.contract.options[k].securityId == q.securityId
  }

  /** The quote is the listing of its key, its change is justified, and neither its key nor its id came
      before. */
  ghost predicate Passes(s: Snapshot, loader: Loader, maxAge: real, i: nat)
    requires i < |s.chain|
  {
    && OwnListing(s, i) && Justified(s, s.chain[i], loader, maxAge)
    && forall j :: 0 <= j < i ==> s.chain[j].key != s.chain[i].key && s.chain[j].securityId != s.chain[i].securityId
  }

  lemma PassesLaw(s: Snapshot, loader: Loader, maxAge: real, i: nat)
    requires i < |s.chain|
    ensures Passes(s, loader, maxAge, i) <==> forall code :: code in CodesAt(s, loader, maxAge, i) ==> code.BaselineRequired?
  {
    hide CodesAt, Justified, IdentityCodes, OwnListing;
    QuoteClean(s, loader, maxAge, i);
    ListingLaw(s, loader, maxAge, i);
    forall code ensures code in CodesAt(s, loader, maxAge, i) && OfIdentity(code) <==> OfIdentity(code) && Reported(s, loader, maxAge, i, code) {
      CodeLaw(s, loader, maxAge, i, code);
    }
    CodeLaw(s, loader, maxAge, i, OptionChainMissing);
  }

  lemma ListingLaw(s: Snapshot, loader: Loader, maxAge: real, i: nat)
    requires i < |s.chain|
    ensures (forall code :: OfIdentity(code) ==> !Reported(s, loader, maxAge, i, code)) <==>
      OwnListing(s, i) && forall j :: 0 <= j < i ==> s.chain[j].key != s.chain[i].key && s.chain[j].securityId != s.chain[i].securityId
  {
    hide MasterListing, Refers, LeadsTo, Meets, Foreign, OnlySame, LoadedBefore;
    var q := s.chain[i];
    MasterLaw(s.contract.options, q.key);
    if forall code :: OfIdentity(code) ==> !Reported(s, loader, maxAge, i, code) {
      assert !Reported(s, loader, maxAge, i, DuplicateStrikeSide) && !Reported(s, loader, maxAge, i, DuplicateSecurityId);
      assert !Reported(s, loader, maxAge, i, SecurityIdMissing) && !Reported(s, loader, maxAge, i, MixedExpiry);
      assert !Reported(s, loader, maxAge, i, OptionNotInContractMaster) && !Reported(s, loader, maxAge, i, OptionSecurityIdMismatch);
    }
  }

  lemma {:induction false} MatchingLaw(chain: seq<Quote>, previous: Previous, q: Quote)
    requires previous.chain == chain
    ensures Matching(chain, q) == [] <==> forall k :: !SameAt(previous, q, k)
    ensures forall k :: OnlySame(previous, q, k) ==> Matching(chain, q) == [chain[k]]
    ensures |Matching(chain, q)| == 1 ==> exists k :: OnlySame(previous, q, k)
  {
    if chain != [] {
      var rest := previous.(chain := chain[1..]);
      MatchingLaw(chain[1..], rest, q);
      forall k | k != 0 ensures SameAt(previous, q, k) <==> SameAt(rest, q, k - 1) {
        if 1 <= k < |chain| { assert chain[1..][k - 1] == chain[k]; }
      }
      if SameAt(previous, q, 0) {
        forall k | SameAt(rest, q, k) ensures SameAt(previous, q, k + 1) {}
        if |Matching(chain, q)| == 1 { assert OnlySame(previous, q, 0); }
        if k :| OnlySame(previous, q, k) {
          assert k == 0;
          assert forall m :: !SameAt(rest, q, m);
        }
      } else {
        forall k | OnlySame(previous, q, k) ensures Matching(chain, q) == [chain[k]] {
          assert OnlySame(rest, q, k - 1) by {
            forall m | SameAt(rest, q, m) ensures m == k - 1 { assert SameAt(previous, q, m + 1); }
          }
        }
        if |Matching(chain, q)| == 1 {
          var k :| OnlySame(rest, q, k);
          assert OnlySame(previous, q, k + 1) by {
            forall m | SameAt(previous, q, m) ensures m == k + 1 { assert SameAt(rest, q, m - 1); }
          }
        }
        assert Matching(chain, q) == [] ==> forall k :: !SameAt(previous, q, k) by {
          if Matching(chain, q) == [] { forall k ensures !SameAt(previous, q, k) { if k != 0 { assert !SameAt(rest, q, k - 1); } } }
        }
      }
    }
  }
}
