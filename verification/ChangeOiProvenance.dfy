/** The independent check of derived open-interest changes, and how it meets the producer: what
    the producer derives from accepted snapshots is what the checker recomputes from them. */
module ChangeOiProvenance {
  import opened Outcomes
  import opened OptionChain

  /** The codes of the chain checks; all are errors except BaselineRequired. */
  datatype Code =
    | OptionChainMissing | DuplicateStrikeSide | SecurityIdMissing | DuplicateSecurityId
    | OptionNotInContractMaster | OptionSecurityIdMismatch | MixedExpiry
    | BaselineRequired
    | OrphanProvenance | InvalidSource | InvalidProvenance
    | ReferenceUnavailable | ReferenceLoadFailed | ReferenceNotAccepted | ReferenceMismatch
    | PriorLegMismatch | TimestampInvalid | IntervalMismatch | DeltaMismatch | SelfReferential

  datatype Issue = Issue(code: Code, quote: nat)

  predicate ChangeOiError(code: Code) {
    || code.OrphanProvenance? || code.InvalidSource? || code.InvalidProvenance?
    || code.ReferenceUnavailable? || code.ReferenceLoadFailed? || code.ReferenceNotAccepted? || code.ReferenceMismatch?
    || code.PriorLegMismatch? || code.TimestampInvalid? || code.IntervalMismatch? || code.DeltaMismatch? || code.SelfReferential?
  }

  /** Access to accepted snapshots; loading a failing id raises. */
  datatype Loader = Absent | Loader(accepted: map<string, Previous>, failing: set<string>)

  // ----- the checks on one quote -----

  function MasterId(options: seq<Listing>, key: Key): Option<string> {
    if options == [] then None
    else if options[|options| - 1].key == key then Some(options[|options| - 1].securityId)
    else MasterId(options[..|options| - 1], key)
  }

  function When(b: bool, code: Code): seq<Code> {
    if b then [code] else []
  }

  predicate KeySeen(chain: seq<Quote>, i: nat, key: Key) {
    exists j :: 0 <= j < i && j < |chain| && chain[j].key == key
  }

  predicate IdSeen(chain: seq<Quote>, i: nat, id: string) {
    exists j :: 0 <= j < i && j < |chain| && chain[j].securityId == id
  }

  function IdentityCodes(s: Snapshot, q: Quote, keySeen: bool, idSeen: bool): seq<Code> {
    var master := MasterId(s.contract.options, q.key);
    When(keySeen, DuplicateStrikeSide)
    + (if q.securityId == "" then [SecurityIdMissing] else When(idSeen, DuplicateSecurityId))
    + (if master.None? then [OptionNotInContractMaster] else When(master.value != q.securityId, OptionSecurityIdMismatch))
    + When(q.expiry != s.contract.expiry, MixedExpiry)
  }

  function ProvenanceCodes(s: Snapshot, q: Quote, maxAge: real): seq<Code> {
    if q.change.None? then [BaselineRequired] + When(q.changeSource.Some? || q.changeInterval.Some?, OrphanProvenance)
    else if s.source != DhanRest then [InvalidSource]
    else When(NoReference(q) || q.changeInterval.None? || !(0.0 < q.changeInterval.value <= maxAge), InvalidProvenance)
  }

  predicate NoReference(q: Quote) {
    q.changeSource.None? || q.changeSource.value == ""
  }

  /** The reference check gets as far as asking the loader. */
  predicate Loads(s: Snapshot, q: Quote, loader: Loader) {
    q.change.Some? && !NoReference(q) && s.source == DhanRest && loader.Loader?
  }

  predicate LoadSeen(s: Snapshot, loader: Loader, i: nat, id: string) {
    exists j :: 0 <= j < i && j < |s.chain| && Loads(s, s.chain[j], loader) && s.chain[j].changeSource == Some(id)
  }

  function Loaded(loader: Loader, id: string): Option<Previous>
    requires loader.Loader?
  {
    if id in loader.accepted && id !in loader.failing then Some(loader.accepted[id]) else None
  }

  predicate SameLeg(p: Quote, q: Quote) {
    p.securityId == q.securityId && p.key == q.key && p.expiry == q.expiry
  }

  function Matching(chain: seq<Quote>, q: Quote): seq<Quote> {
    if chain == [] then []
    else (if SameLeg(chain[0], q) then [chain[0]] else []) + Matching(chain[1..], q)
  }

  function Abs(x: real): real { if x < 0.0 then -x else x }

  function LegCodes(s: Snapshot, q: Quote, previous: Previous, p: Quote): seq<Code> {
    if s.sourceTimestamp.Naive? || q.observedAt.Naive? || previous.sourceTimestamp.Naive? || p.observedAt.Naive? then [TimestampInvalid]
    else
      var sourceGap := s.sourceTimestamp.micros - previous.sourceTimestamp.micros;
      var legGap := q.observedAt.micros - p.observedAt.micros;
      When(s.sourceTimestamp != q.observedAt || previous.sourceTimestamp != p.observedAt || sourceGap <= 0 || legGap != sourceGap
           || q.changeInterval.None? || Abs(q.changeInterval.value - Seconds(legGap)) > 0.000000001, IntervalMismatch)
      + When(p.openInterest.None? || q.openInterest.None? || q.change != Some(q.openInterest.value - p.openInterest.value), DeltaMismatch)
  }

  function PreviousCodes(s: Snapshot, q: Quote, id: string, previous: Previous): seq<Code> {
    if previous.snapshotId != id || previous.source != DhanRest || previous.contractKey != s.contract.contractKey || previous.sequence >= s.sequence
    then [ReferenceMismatch]
    else
      var matches := Matching(previous.chain, q);
      if |matches| != 1 then [PriorLegMismatch] else LegCodes(s, q, previous, matches[0])
  }

  /** A load that raises is reported once; later uses of that id find nothing accepted. */
  function ReferenceCodes(s: Snapshot, q: Quote, loader: Loader, loadSeen: bool): seq<Code> {
    if q.change.None? || NoReference(q) || s.source != DhanRest then []
    else if loader.Absent? then [ReferenceUnavailable]
    else
      var id := q.changeSource.value;
      if id in loader.failing && !loadSeen then [ReferenceLoadFailed]
      else match Loaded(loader, id)
        case None => [ReferenceNotAccepted]
        case Some(previous) => PreviousCodes(s, q, id, previous)
  }

  function CodesAt(s: Snapshot, loader: Loader, maxAge: real, i: nat): seq<Code>
    requires i < |s.chain|
  {
    var q := s.chain[i];
    IdentityCodes(s, q, KeySeen(s.chain, i, q.key), IdSeen(s.chain, i, q.securityId))
    + ProvenanceCodes(s, q, maxAge)
    + ReferenceCodes(s, q, loader, q.changeSource.Some? && LoadSeen(s, loader, i, q.changeSource.value))
    + When(q.changeSource == Some(s.snapshotId), SelfReferential)
  }

  function Tagged(codes: seq<Code>, i: nat): seq<Issue> {
    seq(|codes|, k requires 0 <= k < |codes| => Issue(codes[k], i))
  }

  function IssuesUpTo(s: Snapshot, loader: Loader, maxAge: real, n: nat): seq<Issue>
    requires n <= |s.chain|
  {
    if n == 0 then [] else IssuesUpTo(s, loader, maxAge, n - 1) + Tagged(CodesAt(s, loader, maxAge, n - 1), n - 1)
  }

  function ChainIssues(s: Snapshot, loader: Loader, maxAge: real): seq<Issue> {
    if s.chain == [] then [Issue(OptionChainMissing, 0)] else IssuesUpTo(s, loader, maxAge, |s.chain|)
  }

  // ----- the checking loop -----

  /** The check of one reference, with the loads of earlier quotes remembered. */
  method CheckReference(s: Snapshot, i: nat, loader: Loader, loaded0: map<string, Option<Previous>>)
    returns (codes: seq<Code>, loaded: map<string, Option<Previous>>)
    requires i < |s.chain| && Remembers(s, loader, i, loaded0)
    ensures var q := s.chain[i];
      codes == ReferenceCodes(s, q, loader, q.changeSource.Some? && LoadSeen(s, loader, i, q.changeSource.value))
    ensures Remembers(s, loader, i + 1, loaded)
  {
    hide PreviousCodes;
    var q := s.chain[i];
    loaded := loaded0;
    if q.change.None? || NoReference(q) || s.source != DhanRest { return [], loaded; }
    if loader.Absent? { return [ReferenceUnavailable], loaded; }
    var id := q.changeSource.value;
    if id !in loaded {
      loaded := loaded[id := Loaded(loader, id)];
      if id in loader.failing { return [ReferenceLoadFailed], loaded; }
    }
    match loaded[id] {
      case None => codes := [ReferenceNotAccepted];
      case Some(previous) => codes := PreviousCodes(s, q, id, previous);
    }
  }

  /** The dictionary of loaded references after the first `i` quotes. */
  ghost predicate Remembers(s: Snapshot, loader: Loader, i: nat, loaded: map<string, Option<Previous>>) {
    && (forall id :: id in loaded <==> LoadSeen(s, loader, i, id))
    && (forall id :: id in loaded ==> loader.Loader? && loaded[id] == Loaded(loader, id))
  }

  method ValidateChain(s: Snapshot, loader: Loader, maxAge: real) returns (issues: seq<Issue>)
    ensures issues == ChainIssues(s, loader, maxAge)
  {
    hide IdentityCodes, ProvenanceCodes, ReferenceCodes, Remembers;
    if s.chain == [] { return [Issue(OptionChainMissing, 0)]; }
    issues := [];
    var seenKeys: set<Key>, seenIds: set<string>, loaded: map<string, Option<Previous>> := {}, {}, map[];
    NothingLoaded(s, loader);
    for i := 0 to |s.chain|
      invariant issues == IssuesUpTo(s, loader, maxAge, i)
      invariant forall key :: key in seenKeys <==> KeySeen(s.chain, i, key)
      invariant forall id :: id in seenIds <==> IdSeen(s.chain, i, id)
      invariant Remembers(s, loader, i, loaded)
    {
      var q := s.chain[i];
      var reference;
      reference, loaded := CheckReference(s, i, loader, loaded);
      var codes := IdentityCodes(s, q, q.key in seenKeys, q.securityId in seenIds)
        + ProvenanceCodes(s, q, maxAge) + reference
        + When(q.changeSource == Some(s.snapshotId), SelfReferential);
      seenKeys, seenIds := seenKeys + {q.key}, seenIds + {q.securityId};
      issues := issues + Tagged(codes, i);
    }
  }

  lemma NothingLoaded(s: Snapshot, loader: Loader)
    ensures Remembers(s, loader, 0, map[])
  {
  }

  // ----- what the checks mean -----

  lemma {:induction false} IssueFrom(s: Snapshot, loader: Loader, maxAge: real, n: nat, code: Code, i: nat)
    requires n <= |s.chain|
    ensures Issue(code, i) in IssuesUpTo(s, loader, maxAge, n) <==> i < n && code in CodesAt(s, loader, maxAge, i)
  {
    hide CodesAt;
    if n > 0 {
      IssueFrom(s, loader, maxAge, n - 1, code, i);
      var codes := CodesAt(s, loader, maxAge, n - 1);
      var tagged := Tagged(codes, n - 1);
      assert forall k :: 0 <= k < |codes| ==> tagged[k] == Issue(codes[k], n - 1);
      if i == n - 1 && code in codes {
        var k :| 0 <= k < |codes| && codes[k] == code;
        assert tagged[k] == Issue(code, i);
      }
    }
  }

  ghost predicate ChangeOiClean(s: Snapshot, loader: Loader, maxAge: real) {
    forall issue :: issue in ChainIssues(s, loader, maxAge) ==> !ChangeOiError(issue.code)
  }

  ghost predicate Accepted(s: Snapshot, loader: Loader, maxAge: real) {
    forall issue :: issue in ChainIssues(s, loader, maxAge) ==> issue.code.BaselineRequired?
  }

  /** The leg a derived change is measured against. */
  ghost predicate MeasuredAgainst(s: Snapshot, q: Quote, previous: Previous, p: Quote) {
    && previous.source == DhanRest && previous.contractKey == s.contract.contractKey && previous.sequence < s.sequence
    && Matching(previous.chain, q) == [p]
    && s.sourceTimestamp.Aware? && previous.sourceTimestamp.Aware?
    && q.observedAt == s.sourceTimestamp && p.observedAt == previous.sourceTimestamp
    && previous.sourceTimestamp.micros < s.sourceTimestamp.micros
    && q.openInterest.Some? && p.openInterest.Some? && q.change == Some(q.openInterest.value - p.openInterest.value)
    && q.changeInterval.Some?
    && Abs(q.changeInterval.value - Seconds(s.sourceTimestamp.micros - previous.sourceTimestamp.micros)) <= 0.000000001
  }

  /** A quote's change is absent without a trace, or it is the difference to the one leg of the
      same security, strike, side and expiry in another, earlier, accepted snapshot. */
  ghost predicate Justified(s: Snapshot, q: Quote, loader: Loader, maxAge: real) {
    && (q.change.None? ==> q.changeSource.None? && q.changeInterval.None?)
    && (q.change.Some? ==>
          && s.source == DhanRest && !NoReference(q) && q.changeSource.value != s.snapshotId
          && q.changeInterval.Some? && 0.0 < q.changeInterval.value <= maxAge
          && loader.Loader? && Loaded(loader, q.changeSource.value).Some?
          && var previous := Loaded(loader, q.changeSource.value).value;
             previous.snapshotId == q.changeSource.value && exists p :: MeasuredAgainst(s, q, previous, p))
  }

  ghost predicate CleanCodes(codes: seq<Code>) {
    forall c :: c in codes ==> !ChangeOiError(c)
  }

  lemma CleanConcat(a: seq<Code>, b: seq<Code>)
    ensures CleanCodes(a + b) <==> CleanCodes(a) && CleanCodes(b)
  {
    if CleanCodes(a + b) {
      assert forall c :: c in a ==> c in a + b;
      assert forall c :: c in b ==> c in a + b;
    }
  }

  lemma LegClean(s: Snapshot, q: Quote, previous: Previous, p: Quote)
    requires Matching(previous.chain, q) == [p] && previous.source == DhanRest && q.change.Some?
    requires previous.contractKey == s.contract.contractKey && previous.sequence < s.sequence
    ensures CleanCodes(LegCodes(s, q, previous, p)) <==> MeasuredAgainst(s, q, previous, p)
  {
    hide Matching, Seconds;
    var codes := LegCodes(s, q, previous, p);
    assert forall c :: c in codes ==> ChangeOiError(c);
    assert CleanCodes(codes) <==> codes == [] by { if codes != [] { assert codes[0] in codes; } }
  }

  lemma PreviousClean(s: Snapshot, q: Quote, id: string, previous: Previous)
    requires q.change.Some?
    ensures CleanCodes(PreviousCodes(s, q, id, previous)) <==> previous.snapshotId == id && exists p :: MeasuredAgainst(s, q, previous, p)
  {
    hide LegCodes;
    var codes := PreviousCodes(s, q, id, previous);
    var matches := Matching(previous.chain, q);
    if codes == [ReferenceMismatch] || codes == [PriorLegMismatch] {
      assert codes[0] in codes;
    }
    if |matches| == 1 { assert matches == [matches[0]]; }
    if previous.snapshotId == id && previous.source == DhanRest && previous.contractKey == s.contract.contractKey
       && previous.sequence < s.sequence && |matches| == 1 {
      LegClean(s, q, previous, matches[0]);
      assert forall p :: MeasuredAgainst(s, q, previous, p) ==> p == matches[0];
    }
  }

  lemma ReferenceClean(s: Snapshot, q: Quote, loader: Loader, seen: bool)
    requires q.change.Some? && s.source == DhanRest && !NoReference(q)
    ensures CleanCodes(ReferenceCodes(s, q, loader, seen)) <==>
      && loader.Loader? && Loaded(loader, q.changeSource.value).Some?
      && var previous := Loaded(loader, q.changeSource.value).value;
         previous.snapshotId == q.changeSource.value && exists p :: MeasuredAgainst(s, q, previous, p)
  {
    hide PreviousCodes, MeasuredAgainst;
    var codes := ReferenceCodes(s, q, loader, seen);
    if codes == [ReferenceUnavailable] || codes == [ReferenceLoadFailed] || codes == [ReferenceNotAccepted] {
      assert codes[0] in codes;
    }
    if loader.Loader? && Loaded(loader, q.changeSource.value).Some? {
      PreviousClean(s, q, q.changeSource.value, Loaded(loader, q.changeSource.value).value);
    }
  }

  lemma IdentityClean(s: Snapshot, q: Quote, keySeen: bool, idSeen: bool)
    ensures CleanCodes(IdentityCodes(s, q, keySeen, idSeen))
  {
  }

  lemma ProvenanceClean(s: Snapshot, q: Quote, maxAge: real)
    ensures CleanCodes(ProvenanceCodes(s, q, maxAge)) <==>
      && (q.change.None? ==> q.changeSource.None? && q.changeInterval.None?)
      && (q.change.Some? ==> s.source == DhanRest && !NoReference(q) && q.changeInterval.Some? && 0.0 < q.changeInterval.value <= maxAge)
  {
    var codes := ProvenanceCodes(s, q, maxAge);
    if codes == [BaselineRequired, OrphanProvenance] { assert codes[1] in codes; }
    if codes == [InvalidSource] || codes == [InvalidProvenance] { assert codes[0] in codes; }
  }

  /** The checks raise no change-OI error on a quote exactly when its change is justified. */
  lemma QuoteClean(s: Snapshot, loader: Loader, maxAge: real, i: nat)
    requires i < |s.chain|
    ensures CleanCodes(CodesAt(s, loader, maxAge, i)) <==> Justified(s, s.chain[i], loader, maxAge)
  {
    hide IdentityCodes, ProvenanceCodes, ReferenceCodes, MeasuredAgainst, Loaded, KeySeen, IdSeen, LoadSeen, CleanCodes;
    var q := s.chain[i];
    var identity := IdentityCodes(s, q, KeySeen(s.chain, i, q.key), IdSeen(s.chain, i, q.securityId));
    var provenance := ProvenanceCodes(s, q, maxAge);
    var seen := q.changeSource.Some? && LoadSeen(s, loader, i, q.changeSource.value);
    var reference := ReferenceCodes(s, q, loader, seen);
    var self := When(q.changeSource == Some(s.snapshotId), SelfReferential);
    CleanConcat(identity, provenance);
    CleanConcat(identity + provenance, reference);
    CleanConcat(identity + provenance + reference, self);
    IdentityClean(s, q, KeySeen(s.chain, i, q.key), IdSeen(s.chain, i, q.securityId));
    ProvenanceClean(s, q, maxAge);
    SelfClean(s, q);
    if q.change.Some? && s.source == DhanRest && !NoReference(q) {
      ReferenceClean(s, q, loader, seen);
    } else {
      NothingToLoad(s, q, loader, seen);
    }
  }

  lemma SelfClean(s: Snapshot, q: Quote)
    ensures CleanCodes(When(q.changeSource == Some(s.snapshotId), SelfReferential)) <==> q.changeSource != Some(s.snapshotId)
  {
    var codes := When(q.changeSource == Some(s.snapshotId), SelfReferential);
    if codes != [] { assert codes[0] in codes; }
  }

  lemma NothingToLoad(s: Snapshot, q: Quote, loader: Loader, seen: bool)
    requires q.change.None? || s.source != DhanRest || NoReference(q)
    ensures CleanCodes(ReferenceCodes(s, q, loader, seen))
  {
  }

  /** Exact meaning of a chain without change-OI errors. */
  lemma CleanMeansJustified(s: Snapshot, loader: Loader, maxAge: real)
    ensures ChangeOiClean(s, loader, maxAge) <==> forall i :: 0 <= i < |s.chain| ==> Justified(s, s.chain[i], loader, maxAge)
  {
    hide Justified, CodesAt, IssuesUpTo;
    forall i | 0 <= i < |s.chain| ensures CleanCodes(CodesAt(s, loader, maxAge, i)) <==> Justified(s, s.chain[i], loader, maxAge) {
      QuoteClean(s, loader, maxAge, i);
    }
    forall issue: Issue
      ensures Issue(issue.code, issue.quote) in IssuesUpTo(s, loader, maxAge, |s.chain|)
        <==> issue.quote < |s.chain| && issue.code in CodesAt(s, loader, maxAge, issue.quote)
    {
      IssueFrom(s, loader, maxAge, |s.chain|, issue.code, issue.quote);
    }
    if ChangeOiClean(s, loader, maxAge) && s.chain != [] {
      forall i | 0 <= i < |s.chain| ensures CleanCodes(CodesAt(s, loader, maxAge, i)) {
        forall c | c in CodesAt(s, loader, maxAge, i) ensures !ChangeOiError(c) {
          assert Issue(c, i).code == c && Issue(c, i).quote == i;
        }
      }
    }
  }

  lemma AcceptedIsClean(s: Snapshot, loader: Loader, maxAge: real)
    requires Accepted(s, loader, maxAge)
    ensures ChangeOiClean(s, loader, maxAge)
  {
  }

  ghost predicate UniqueKeys(chain: seq<Quote>) {
    forall i, j :: 0 <= i < j < |chain| ==> chain[i].key != chain[j].key
  }

  lemma AcceptedHasUniqueKeys(s: Snapshot, loader: Loader, maxAge: real)
    requires Accepted(s, loader, maxAge)
    ensures UniqueKeys(s.chain)
  {
    hide CodesAt, IssuesUpTo;
    forall i, j | 0 <= i < j < |s.chain| ensures s.chain[i].key != s.chain[j].key {
      IssueFrom(s, loader, maxAge, |s.chain|, DuplicateStrikeSide, j);
      DuplicateReported(s, loader, maxAge, i, j);
    }
  }

  lemma DuplicateReported(s: Snapshot, loader: Loader, maxAge: real, i: nat, j: nat)
    requires i < j < |s.chain|
    ensures s.chain[i].key == s.chain[j].key ==> DuplicateStrikeSide in CodesAt(s, loader, maxAge, j)
  {
    hide ProvenanceCodes, ReferenceCodes, MasterId;
    if s.chain[i].key == s.chain[j].key {
      assert KeySeen(s.chain, j, s.chain[j].key);
      assert CodesAt(s, loader, maxAge, j)[0] == DuplicateStrikeSide;
    }
  }

  // ----- histories -----

  /** One call of the producer. `base` picks the accepted snapshot handed in as the previous one. */
  datatype Request = Request(
    snapshotId: string, rows: seq<Row>, contract: Contract, sourceTimestamp: Instant, sequence: int, base: Option<nat>, limit: int,
    otherErrors: bool)

  function BuildOf(history: seq<Snapshot>, r: Request): Build {
    var previous := if r.base.Some? && r.base.value < |history| then Some(AsPrevious(history[r.base.value])) else None;
    Build(r.contract, r.sourceTimestamp, r.sequence, DhanRest, previous, r.limit)
  }

  function BuildDhanSnapshot(history: seq<Snapshot>, r: Request): Result<Snapshot> {
    match Normalize(BuildOf(history, r), r.rows)
    case Err(e) => Err(e)
    case Ok(chain) => Ok(Snapshot(r.snapshotId, r.sequence, DhanRest, r.sourceTimestamp, r.contract, chain))
  }

  function ById(history: seq<Snapshot>): map<string, Previous> {
    if history == [] then map[]
    else ById(history[..|history| - 1])[history[|history| - 1].snapshotId := AsPrevious(history[|history| - 1])]
  }

  /** The faithful loader: exactly the accepted snapshots, by id. */
  function Repository(history: seq<Snapshot>): Loader {
    Loader(ById(history), {})
  }

  /** Ids are drawn anew for every snapshot. */
  ghost predicate FreshId(history: seq<Snapshot>, id: string) {
    forall i :: 0 <= i < |history| ==> history[i].snapshotId != id
  }

  /** Build, validate, and keep the snapshot if nothing at all was wrong with it. */
  ghost function Ingest(history: seq<Snapshot>, r: Request, maxAge: real): seq<Snapshot> {
    var built := BuildDhanSnapshot(history, r);
    if built.Ok? && FreshId(history, r.snapshotId) && !r.otherErrors && Accepted(built.value, Repository(history), maxAge)
    then history + [built.value] else history
  }

  ghost function RunIngest(requests: seq<Request>, maxAge: real): seq<Snapshot> {
    if requests == [] then [] else Ingest(RunIngest(requests[..|requests| - 1], maxAge), requests[|requests| - 1], maxAge)
  }

  ghost predicate EntryOk(history: seq<Snapshot>, i: nat, maxAge: real)
    requires i < |history|
  {
    && FreshId(history[..i], history[i].snapshotId)
    && Accepted(history[i], Repository(history[..i]), maxAge)
    && (forall k :: 0 <= k < |history[i].chain| ==> history[i].chain[k].observedAt == history[i].sourceTimestamp)
  }

  ghost predicate HistoryOk(history: seq<Snapshot>, maxAge: real) {
    forall i :: 0 <= i < |history| ==> EntryOk(history, i, maxAge)
  }

  lemma BuiltAtSource(history: seq<Snapshot>, r: Request)
    requires BuildDhanSnapshot(history, r).Ok?
    ensures BuildDhanSnapshot(history, r).value.snapshotId == r.snapshotId
    ensures var s := BuildDhanSnapshot(history, r).value;
      forall k :: 0 <= k < |s.chain| ==> Produced(BuildOf(history, r), s.chain[k]) && s.chain[k].observedAt == s.sourceTimestamp
  {
    hide Normalize, PriorLeg, StrictInterval;
    NormalizedProduced(BuildOf(history, r), r.rows);
    var s := BuildDhanSnapshot(history, r).value;
    assert forall k :: 0 <= k < |s.chain| ==> s.chain[k] in s.chain;
  }

  lemma IngestOk(history: seq<Snapshot>, r: Request, maxAge: real)
    requires HistoryOk(history, maxAge)
    ensures HistoryOk(Ingest(history, r, maxAge), maxAge)
  {
    hide Accepted, BuildDhanSnapshot, Repository, Produced, BuildOf;
    var after := Ingest(history, r, maxAge);
    forall i | 0 <= i < |after| ensures EntryOk(after, i, maxAge) {
      if i < |history| {
        assert after[..i] == history[..i];
        assert EntryOk(history, i, maxAge);
      } else {
        BuiltAtSource(history, r);
        assert after[..i] == history;
        assert after[i] == BuildDhanSnapshot(history, r).value;
      }
    }
  }

  lemma {:induction false} RunOk(requests: seq<Request>, maxAge: real)
    ensures HistoryOk(RunIngest(requests, maxAge), maxAge)
  {
    hide HistoryOk, Ingest;
    if requests == [] {
      EmptyOk(maxAge);
    } else {
      RunOk(requests[..|requests| - 1], maxAge);
      IngestOk(RunIngest(requests[..|requests| - 1], maxAge), requests[|requests| - 1], maxAge);
    }
  }

  lemma EmptyOk(maxAge: real)
    ensures HistoryOk([], maxAge)
  {
  }

  lemma {:induction false} ByIdFinds(history: seq<Snapshot>, j: nat, maxAge: real)
    requires HistoryOk(history, maxAge) && j < |history|
    ensures history[j].snapshotId in ById(history) && ById(history)[history[j].snapshotId] == AsPrevious(history[j])
  {
    hide Accepted;
    var n := |history| - 1;
    assert EntryOk(history, n, maxAge);
    if j < n {
      var shorter := history[..n];
      PrefixOk(history, n, maxAge);
      ByIdFinds(shorter, j, maxAge);
      assert shorter[j] == history[j];
      assert history[j].snapshotId != history[n].snapshotId;
    }
  }

  lemma PrefixOk(history: seq<Snapshot>, n: nat, maxAge: real)
    requires HistoryOk(history, maxAge) && n <= |history|
    ensures HistoryOk(history[..n], maxAge)
  {
    hide Accepted;
    forall i | 0 <= i < n ensures EntryOk(history[..n], i, maxAge) {
      assert EntryOk(history, i, maxAge);
      assert history[..n][..i] == history[..i];
    }
  }

  lemma {:induction false} UniqueMatch(chain: seq<Quote>, p: Quote, q: Quote)
    requires UniqueKeys(chain) && p in chain && SameLeg(p, q)
    ensures Matching(chain, q) == [p]
  {
    if chain[0] == p {
      NoMatch(chain[1..], q);
    } else {
      assert chain == [chain[0]] + chain[1..];
      assert p in chain[1..];
      UniqueMatch(chain[1..], p, q);
      var k :| 0 <= k < |chain| && chain[k] == p;
      assert chain[0].key != chain[k].key;
    }
  }

  lemma {:induction false} NoMatch(chain: seq<Quote>, q: Quote)
    requires forall k :: 0 <= k < |chain| ==> chain[k].key != q.key
    ensures Matching(chain, q) == []
  {
    if chain != [] { NoMatch(chain[1..], q); }
  }

  // ----- the producer meets the checker -----

  /** Whole seconds and fractions between the snapshot and its baseline. */
  function Gap(history: seq<Snapshot>, r: Request): real {
    if r.base.Some? && r.base.value < |history| then Seconds(r.sourceTimestamp.micros - history[r.base.value].sourceTimestamp.micros) else 0.0
  }

  /** A derived quote points at its baseline's one leg, and its interval is the gap. */
  lemma DerivedQuote(history: seq<Snapshot>, r: Request, maxAge: real, q: Quote)
    requires HistoryOk(history, maxAge) && Produced(BuildOf(history, r), q) && q.change.Some?
    ensures r.base.Some? && r.base.value < |history|
    ensures var base := history[r.base.value];
      && !Blank(base.snapshotId) && q.changeSource == Some(base.snapshotId)
      && q.changeInterval == Some(Gap(history, r)) && 0.0 < Gap(history, r) <= Seconds(r.limit)
      && base.source == DhanRest && base.contract.contractKey == r.contract.contractKey && base.sequence < r.sequence
      && base.sourceTimestamp.Aware? && r.sourceTimestamp.Aware? && base.sourceTimestamp.micros < r.sourceTimestamp.micros
      && exists p :: p in base.chain && SameLeg(p, q) && p.observedAt == base.sourceTimestamp
                     && p.openInterest.Some? && q.openInterest.Some? && q.change == Some(q.openInterest.value - p.openInterest.value)
  {
    hide Accepted;
    var b := BuildOf(history, r);
    var p := PriorLeg(b, q.key).value;
    var base := history[r.base.value];
    CandidatesMeaning(b, base.chain, q.key);
    assert p in Candidates(b, base.chain, q.key);
    assert EntryOk(history, r.base.value, maxAge);
    assert p in base.chain && SameLeg(p, q) && p.observedAt == base.sourceTimestamp;
  }

  lemma DerivedJustified(history: seq<Snapshot>, r: Request, maxAge: real, s: Snapshot, q: Quote)
    requires HistoryOk(history, maxAge) && FreshId(history, r.snapshotId)
    requires BuildDhanSnapshot(history, r) == Ok(s)
    requires Produced(BuildOf(history, r), q) && q.observedAt == s.sourceTimestamp && q.change.Some?
    ensures Justified(s, q, Repository(history), maxAge) <==> Gap(history, r) <= maxAge
  {
    hide Produced, HistoryOk, Normalize, Accepted, Seconds;
    DerivedQuote(history, r, maxAge, q);
    var base := history[r.base.value];
    var p :| p in base.chain && SameLeg(p, q) && p.observedAt == base.sourceTimestamp
             && p.openInterest.Some? && q.openInterest.Some? && q.change == Some(q.openInterest.value - p.openInterest.value);
    ByIdFinds(history, r.base.value, maxAge);
    BaseKeysUnique(history, r.base.value, maxAge);
    UniqueMatch(base.chain, p, q);
    assert MeasuredAgainst(s, q, AsPrevious(base), p);
  }

  lemma BaseKeysUnique(history: seq<Snapshot>, j: nat, maxAge: real)
    requires HistoryOk(history, maxAge) && j < |history|
    ensures UniqueKeys(history[j].chain)
  {
    hide Accepted;
    assert EntryOk(history, j, maxAge);
    AcceptedHasUniqueKeys(history[j], Repository(history[..j]), maxAge);
  }

  /** Exactly when the checker agrees with the producer, after any run of ingestions: a built
      snapshot raises no change-OI error if and only if nothing was derived or the time since
      the baseline is within the checker's age limit. */
  lemma ProducerMeetsChecker(requests: seq<Request>, maxAge: real, r: Request)
    requires FreshId(RunIngest(requests, maxAge), r.snapshotId)
    requires BuildDhanSnapshot(RunIngest(requests, maxAge), r).Ok?
    ensures var history := RunIngest(requests, maxAge);
      var s := BuildDhanSnapshot(history, r).value;
      ChangeOiClean(s, Repository(history), maxAge) <==>
        Gap(history, r) <= maxAge || forall k :: 0 <= k < |s.chain| ==> s.chain[k].change.None?
  {
    hide RunIngest, Produced, HistoryOk, BuildDhanSnapshot, Repository, FreshId, ChangeOiClean, BuildOf, Gap;
    RunOk(requests, maxAge);
    var history := RunIngest(requests, maxAge);
    var s := BuildDhanSnapshot(history, r).value;
    BuiltAtSource(history, r);
    CleanMeansJustified(s, Repository(history), maxAge);
    forall k | 0 <= k < |s.chain|
      ensures Justified(s, s.chain[k], Repository(history), maxAge) <==> s.chain[k].change.None? || Gap(history, r) <= maxAge
    {
      if s.chain[k].change.Some? {
        DerivedJustified(history, r, maxAge, s, s.chain[k]);
      } else {
        BareQuote(history, r, s.chain[k]);
      }
    }
  }

  lemma BareQuote(history: seq<Snapshot>, r: Request, q: Quote)
    requires Produced(BuildOf(history, r), q) && q.change.None?
    ensures q.changeSource.None? && q.changeInterval.None?
  {
  }

  /** When the producer's interval limit is within the checker's age limit, no built snapshot
      ever raises a change-OI error. */
  lemma ProducerAlwaysClean(requests: seq<Request>, maxAge: real, r: Request)
    requires FreshId(RunIngest(requests, maxAge), r.snapshotId)
    requires BuildDhanSnapshot(RunIngest(requests, maxAge), r).Ok?
    requires Seconds(r.limit) <= maxAge
    ensures var history := RunIngest(requests, maxAge);
      ChangeOiClean(BuildDhanSnapshot(history, r).value, Repository(history), maxAge)
  {
    hide RunIngest, Produced, HistoryOk, BuildDhanSnapshot, Repository, FreshId, ChangeOiClean, BuildOf, Gap, Seconds;
    var history := RunIngest(requests, maxAge);
    var s := BuildDhanSnapshot(history, r).value;
    ProducerMeetsChecker(requests, maxAge, r);
    if k: nat :| k < |s.chain| && s.chain[k].change.Some? {
      RunOk(requests, maxAge);
      BuiltAtSource(history, r);
      DerivedQuote(history, r, maxAge, s.chain[k]);
    }
  }

  // ----- telescoping -----

  /** The newest of the first `n` snapshots that carries an id. */
  function Position(history: seq<Snapshot>, n: nat, id: string): (j: Option<nat>)
    requires n <= |history|
    ensures j.Some? ==> j.value < n && history[j.value].snapshotId == id
  {
    if n == 0 then None else if history[n - 1].snapshotId == id then Some(n - 1) else Position(history, n - 1, id)
  }

  /** Where a quote's reference leads: the snapshot's position and the matching leg. */
  function Back(history: seq<Snapshot>, i: nat, q: Quote): (step: Option<(nat, Quote)>)
    requires i <= |history|
    ensures step.Some? ==> step.value.0 < i
  {
    if q.change.None? || q.changeSource.None? then None
    else match Position(history, i, q.changeSource.value)
      case None => None
      case Some(j) =>
        var matches := Matching(history[j].chain, q);
        if matches == [] then None else Some((j, matches[0]))
  }

  /** The sum of the changes met when following references back from a quote. */
  function TotalChange(history: seq<Snapshot>, i: nat, q: Quote): int
    requires i <= |history|
    decreases i
  {
    match Back(history, i, q)
    case None => 0
    case Some((j, p)) => (if q.change.Some? then q.change.value else 0) + TotalChange(history, j, p)
  }

  /** The leg where following references back ends. */
  function Origin(history: seq<Snapshot>, i: nat, q: Quote): Quote
    requires i <= |history|
    decreases i
  {
    match Back(history, i, q)
    case None => q
    case Some((j, p)) => Origin(history, j, p)
  }

  lemma {:induction false} PositionInById(history: seq<Snapshot>, n: nat, id: string)
    requires n <= |history|
    ensures Position(history, n, id).Some? <==> id in ById(history[..n])
    ensures Position(history, n, id).Some? ==> ById(history[..n])[id] == AsPrevious(history[Position(history, n, id).value])
  {
    if n > 0 {
      PositionInById(history, n - 1, id);
      assert history[..n][..n - 1] == history[..n - 1];
    }
  }

  lemma {:induction false} MatchingMeaning(chain: seq<Quote>, q: Quote)
    ensures forall p :: p in Matching(chain, q) <==> p in chain && SameLeg(p, q)
  {
    if chain != [] {
      MatchingMeaning(chain[1..], q);
      assert chain == [chain[0]] + chain[1..];
    }
  }

  /** A derived quote of an accepted snapshot has a predecessor leg, and its change is the
      difference to it. */
  lemma BackStep(history: seq<Snapshot>, maxAge: real, i: nat, q: Quote)
    requires HistoryOk(history, maxAge) && i < |history| && q in history[i].chain && q.change.Some?
    ensures Back(history, i, q).Some?
    ensures var (j, p) := Back(history, i, q).value;
      && p in history[j].chain && SameLeg(p, q) && p.openInterest.Some? && q.openInterest.Some?
      && q.change.value == q.openInterest.value - p.openInterest.value
  {
    hide Accepted, ById, Seconds;
    var loader := Repository(history[..i]);
    assert EntryOk(history, i, maxAge);
    AcceptedIsClean(history[i], loader, maxAge);
    CleanMeansJustified(history[i], loader, maxAge);
    var k :| 0 <= k < |history[i].chain| && history[i].chain[k] == q;
    assert Justified(history[i], history[i].chain[k], loader, maxAge);
    var id := q.changeSource.value;
    PositionInById(history, i, id);
    var previous := Loaded(loader, id).value;
    var p :| MeasuredAgainst(history[i], q, previous, p);
    MatchingMeaning(previous.chain, q);
    assert p in Matching(previous.chain, q);
  }

  lemma {:induction false} TelescopesIn(history: seq<Snapshot>, maxAge: real, i: nat, q: Quote)
    requires HistoryOk(history, maxAge) && i < |history| && q in history[i].chain && q.openInterest.Some?
    ensures var origin := Origin(history, i, q);
      && SameLeg(origin, q) && origin.openInterest.Some? && origin.change.None?
      && TotalChange(history, i, q) == q.openInterest.value - origin.openInterest.value
    decreases i
  {
    hide HistoryOk, SameLeg, Back;
    if q.change.Some? {
      BackStep(history, maxAge, i, q);
      var (j, p) := Back(history, i, q).value;
      TelescopesIn(history, maxAge, j, p);
      SameLegTransitive(Origin(history, j, p), p, q);
    } else {
      BareEnds(history, i, q);
    }
  }

  lemma SameLegTransitive(a: Quote, b: Quote, c: Quote)
    requires SameLeg(a, b) && SameLeg(b, c)
    ensures SameLeg(a, c)
  {
  }

  lemma BareEnds(history: seq<Snapshot>, i: nat, q: Quote)
    requires i <= |history| && q.change.None?
    ensures Back(history, i, q).None? && SameLeg(q, q)
  {
  }

  /** After any run of ingestions, the changes met by following a leg's references back to a
      baseline without one add up to its open interest minus the baseline's. */
  lemma ChangesTelescope(requests: seq<Request>, maxAge: real, i: nat, q: Quote)
    requires i < |RunIngest(requests, maxAge)| && q in RunIngest(requests, maxAge)[i].chain && q.openInterest.Some?
    ensures var history := RunIngest(requests, maxAge);
      var origin := Origin(history, i, q);
      && SameLeg(origin, q) && origin.openInterest.Some? && origin.change.None?
      && TotalChange(history, i, q) == q.openInterest.value - origin.openInterest.value
  {
    hide RunIngest;
    RunOk(requests, maxAge);
    TelescopesIn(RunIngest(requests, maxAge), maxAge, i, q);
  }
}
