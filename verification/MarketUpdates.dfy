/** The market read-model store, its long-poll route and the browser loop that follows it. The
    store keeps only the newest publication per key and one revision counter, so a slow client
    skips events; the question is whether it can miss a publication. */
module MarketUpdates {
  import opened Outcomes

  datatype Key = Key(market: string, symbol: string, expiry: string)

  /** Source time, sequence and receipt time, compared in that order. */
  datatype Stamp = Stamp(sourceTime: int, sequence: int, receivedAt: int)

  predicate Before(a: Stamp, b: Stamp) {
    || a.sourceTime < b.sourceTime
    || (a.sourceTime == b.sourceTime && a.sequence < b.sequence)
    || (a.sourceTime == b.sourceTime && a.sequence == b.sequence && a.receivedAt < b.receivedAt)
  }

  datatype Publication = Publication(key: Key, stamp: Stamp, expiryDate: string, securities: set<string>, snapshotId: string, contentHash: string)

  /** What accompanies a snapshot: its validation report and possibly an analysis with a plan. */
  datatype Report = Report(snapshotId: string, snapshotHash: string)

  datatype Analysis = Analysis(snapshotId: string, planSnapshotId: Option<string>)

  /** Report, analysis and plan all speak of this very snapshot. */
  predicate Bound(p: Publication, report: Report, analysis: Option<Analysis>) {
    && report.snapshotId == p.snapshotId && report.snapshotHash == p.contentHash
    && (analysis.Some? ==> analysis.value.snapshotId == p.snapshotId)
    && (analysis.Some? && analysis.value.planSnapshotId.Some? ==> analysis.value.planSnapshotId.value == p.snapshotId)
  }

  /** A decoded packet; `finite` says that every field is a finite number, `depthValid` that every
      depth level is finite and non-negative. */
  datatype Packet = Packet(code: nat, securityId: string, finite: bool, lastTradeEpoch: Option<int>, depthValid: bool)

  predicate Primary(packet: Packet) {
    packet.code == 2 || packet.code == 4 || packet.code == 8
  }

  /** A market-data packet with an id, finite fields and, if it carries a price, a trade time. */
  predicate Usable(packet: Packet) {
    && packet.code != 7 && packet.code != 50 && packet.securityId != "" && packet.finite
    && (Primary(packet) ==> packet.lastTradeEpoch.Some? && packet.lastTradeEpoch.value > 0)
  }

  datatype Tick = Tick(observedAt: int, receivedAt: int, revision: nat)

  datatype Event = Workspace(publication: Publication) | FeedTick(securityId: string)

  // ----- the store -----

  datatype Store = Store(latest: map<Key, Publication>, ticks: map<string, Tick>, revision: nat, closed: bool)

  predicate Newer(s: Store, p: Publication) {
    p.key in s.latest ==> Before(s.latest[p.key].stamp, p.stamp)
  }

  function Published(s: Store, p: Publication): Store {
    s.(latest := s.latest[p.key := p], revision := s.revision + 1)
  }

  predicate Known(s: Store, securityId: string) {
    exists k :: k in s.latest && securityId in s.latest[k].securities
  }

  /** A price tick must be newer than the one kept; other packets only enrich an existing tick. */
  predicate TickAccepted(s: Store, packet: Packet, at: int, capacity: nat) {
    && Usable(packet) && packet.depthValid && !s.closed && Known(s, packet.securityId)
    && (Primary(packet) ==> (packet.securityId in s.ticks ==> s.ticks[packet.securityId].observedAt < at))
    && (!Primary(packet) ==> packet.securityId in s.ticks)
    && (packet.securityId in s.ticks || |s.ticks| < capacity)
  }

  function Ticked(s: Store, packet: Packet, at: int): Store {
    var id := packet.securityId;
    var observed := if Primary(packet) || id !in s.ticks then at else s.ticks[id].observedAt;
    s.(ticks := s.ticks[id := Tick(observed, at, s.revision + 1)], revision := s.revision + 1)
  }

  // ----- reading a workspace -----

  datatype Selection = Selection(market: string, symbol: string, expiry: string)

  predicate Matches(sel: Selection, p: Publication) {
    && p.key.market == sel.market && p.key.symbol == sel.symbol
    && (p.key.expiry == sel.expiry || p.expiryDate == sel.expiry)
  }

  /** `view` is a newest matching publication, or there is none; without a selection no workspace
      is shown. */
  ghost predicate Resolves(latest: map<Key, Publication>, selection: Option<Selection>, view: Option<Publication>) {
    match view
    case None => selection.Some? ==> forall k :: k in latest ==> !Matches(selection.value, latest[k])
    case Some(p) =>
      && selection.Some?
      && (exists k :: k in latest && latest[k] == p && Matches(selection.value, p))
      && (forall k :: k in latest && Matches(selection.value, latest[k]) ==> !Before(p.stamp, latest[k].stamp))
  }

  // ----- the history behind a store -----

  /** The latest publications after the first `n` events. */
  function LatestAfter(log: seq<Event>, n: nat): map<Key, Publication>
    requires n <= |log|
  {
    if n == 0 then map[]
    else
      var before := LatestAfter(log, n - 1);
      match log[n - 1]
      case Workspace(p) => before[p.key := p]
      case FeedTick(_) => before
  }

  /** Every publication of the log was newer than the one it replaced. */
  ghost predicate Chronological(log: seq<Event>) {
    forall i :: 0 <= i < |log| && log[i].Workspace? ==>
      var p := log[i].publication;
      p.key in LatestAfter(log, i) ==> Before(LatestAfter(log, i)[p.key].stamp, p.stamp)
  }

  lemma {:induction false} LatestAfterPrefix(log: seq<Event>, e: Event, n: nat)
    requires n <= |log|
    ensures LatestAfter(log + [e], n) == LatestAfter(log, n)
  {
    if n > 0 { LatestAfterPrefix(log, e, n - 1); }
  }

  /** A publication is never lost: from its revision on, its key holds it or a newer one. */
  lemma {:induction false} PublicationKept(log: seq<Event>, i: nat, n: nat)
    requires Chronological(log) && i < n <= |log| && log[i].Workspace?
    ensures var p := log[i].publication;
      && p.key in LatestAfter(log, n)
      && (LatestAfter(log, n)[p.key] == p || Before(p.stamp, LatestAfter(log, n)[p.key].stamp))
    decreases n
  {
    if n > i + 1 { PublicationKept(log, i, n - 1); }
  }

  /** What a key holds has the largest source time, then sequence, then receipt time, of everything
      published under it, and was itself published. */
  lemma NewestKept(log: seq<Event>, i: nat, n: nat)
    requires Chronological(log) && i < n <= |log| && log[i].Workspace?
    ensures var p := log[i].publication;
      && p.key in LatestAfter(log, n)
      && var kept := LatestAfter(log, n)[p.key].stamp;
      && kept.sourceTime >= p.stamp.sourceTime
      && (kept.sourceTime == p.stamp.sourceTime ==> kept.sequence >= p.stamp.sequence)
      && (kept.sourceTime == p.stamp.sourceTime && kept.sequence == p.stamp.sequence ==> kept.receivedAt >= p.stamp.receivedAt)
      && Workspace(LatestAfter(log, n)[p.key]) in log[..n] && LatestAfter(log, n)[p.key].key == p.key
  {
    hide Chronological;
    PublicationKept(log, i, n);
    KeptPublished(log, n, log[i].publication.key);
  }

  lemma {:induction false} KeptPublished(log: seq<Event>, n: nat, key: Key)
    requires n <= |log| && key in LatestAfter(log, n)
    ensures Workspace(LatestAfter(log, n)[key]) in log[..n] && LatestAfter(log, n)[key].key == key
  {
    if n > 0 {
      assert log[..n] == log[..n - 1] + [log[n - 1]];
      if key in LatestAfter(log, n - 1) { KeptPublished(log, n - 1, key); }
    }
  }

  /** On an open store a bound publication is taken exactly when its key is new or it is later than
      what the key holds: by source time, then by sequence, then by receipt time. */
  lemma PublishLaw(store: Store, log: seq<Event>, p: Publication, report: Report, analysis: Option<Analysis>)
    requires !store.closed && Mentioned(report, analysis) == {p.snapshotId} && report.snapshotHash == p.contentHash
    ensures var (store', log') := Updated(store, log, Publish(p, report, analysis));
      if p.key !in store.latest then TakenAs(store, log, p, store', log')
      else
        var kept, stamp := store.latest[p.key].stamp, p.stamp;
        if stamp.sourceTime != kept.sourceTime then
          if stamp.sourceTime > kept.sourceTime then TakenAs(store, log, p, store', log') else (store', log') == (store, log)
        else if stamp.sequence != kept.sequence then
          if stamp.sequence > kept.sequence then TakenAs(store, log, p, store', log') else (store', log') == (store, log)
        else if stamp.receivedAt > kept.receivedAt then TakenAs(store, log, p, store', log') else (store', log') == (store, log)
  {
    BoundLaw(p, report, analysis);
  }

  ghost predicate TakenAs(store: Store, log: seq<Event>, p: Publication, store': Store, log': seq<Event>) {
    && store'.latest == store.latest[p.key := p] && store'.revision == store.revision + 1
    && store'.ticks == store.ticks && store'.closed == store.closed && log' == log + [Workspace(p)]
  }

  /** Every snapshot id that a report, an analysis and its plan speak of. */
  ghost function Mentioned(report: Report, analysis: Option<Analysis>): set<string> {
    {report.snapshotId}
    + match analysis
      case None => {}
      case Some(a) => {a.snapshotId} + match a.planSnapshotId case None => {} case Some(id) => {id}
  }

  lemma BoundLaw(p: Publication, report: Report, analysis: Option<Analysis>)
    ensures Bound(p, report, analysis) <==> Mentioned(report, analysis) == {p.snapshotId} && report.snapshotHash == p.contentHash
  {
    if Mentioned(report, analysis) == {p.snapshotId} {
      assert report.snapshotId in Mentioned(report, analysis);
      if analysis.Some? {
        assert analysis.value.snapshotId in Mentioned(report, analysis);
        if analysis.value.planSnapshotId.Some? { assert analysis.value.planSnapshotId.value in Mentioned(report, analysis); }
      }
    }
  }

  /** A tick changes the store exactly when it is a usable quote of a published instrument: a traded
      price later than the tick kept, or an addition to a tick, while there is room for it. Only a
      traded price moves the time of observation. */
  lemma TickLaw(store: Store, log: seq<Event>, packet: Packet, at: int, capacity: nat)
    ensures var (store', log') := Updated(store, log, FeedPacket(packet, at, capacity));
      var id, priced := packet.securityId, packet.code in {2, 4, 8};
      if && !store.closed && id != "" && packet.finite && packet.depthValid && packet.code !in {7, 50}
         && (exists p :: p in store.latest.Values && id in p.securities)
         && (id in store.ticks || |store.ticks| < capacity)
         && (if priced then packet.lastTradeEpoch.Some? && packet.lastTradeEpoch.value > 0
                            && (id in store.ticks ==> at > store.ticks[id].observedAt)
             else id in store.ticks)
      then
        && log' == log + [FeedTick(id)] && store'.revision == store.revision + 1
        && store'.latest == store.latest && store'.closed == store.closed
        && store'.ticks.Keys == store.ticks.Keys + {id}
        && (forall other :: other in store.ticks && other != id ==> store'.ticks[other] == store.ticks[other])
        && store'.ticks[id].receivedAt == at && store'.ticks[id].revision == store'.revision
        && store'.ticks[id].observedAt == (if priced then at else if id in store.ticks then store.ticks[id].observedAt else at)
      else (store', log') == (store, log)
  {
    KnownLaw(store, packet.securityId);
  }

  lemma KnownLaw(store: Store, id: string)
    ensures Known(store, id) <==> exists p :: p in store.latest.Values && id in p.securities
  {
    if k :| k in store.latest && id in store.latest[k].securities { assert store.latest[k] in store.latest.Values; }
  }

  /** A selection names a market and a symbol, and an expiry by its key or by its date. */
  lemma SelectionLaw(sel: Selection, p: Publication)
    ensures Matches(sel, p) <==>
      || p.key == Key(sel.market, sel.symbol, sel.expiry)
      || (p.key == Key(sel.market, sel.symbol, p.key.expiry) && sel.expiry == p.expiryDate)
  {
  }

  /** A store agrees with its history: one revision per event, the newest publication per key. */
  ghost predicate Reflects(store: Store, log: seq<Event>) {
    store.revision == |log| && store.latest == LatestAfter(log, |log|) && Chronological(log)
  }

  datatype Update =
    | Publish(publication: Publication, report: Report, analysis: Option<Analysis>)
    | FeedPacket(packet: Packet, at: int, capacity: nat)
    | CloseStore

  /** What an update makes of a store and its history. */
  function Updated(store: Store, log: seq<Event>, u: Update): (Store, seq<Event>) {
    match u
    case Publish(p, report, analysis) =>
      if store.closed || !Bound(p, report, analysis) || !Newer(store, p) then (store, log)
      else (Published(store, p), log + [Workspace(p)])
    case FeedPacket(packet, at, capacity) =>
      if !TickAccepted(store, packet, at, capacity) then (store, log)
      else (Ticked(store, packet, at), log + [FeedTick(packet.securityId)])
    case CloseStore => (store.(closed := true), log)
  }

  lemma EventReflects(store: Store, store': Store, log: seq<Event>, e: Event)
    requires Reflects(store, log) && store'.revision == store.revision + 1
    requires match e
      case Workspace(p) => Newer(store, p) && store'.latest == store.latest[p.key := p]
      case FeedTick(_) => store'.latest == store.latest
    ensures Reflects(store', log + [e])
  {
    var log' := log + [e];
    LatestAfterPrefix(log, e, |log|);
    forall i | 0 <= i < |log'| && log'[i].Workspace?
      ensures var p := log'[i].publication; p.key in LatestAfter(log', i) ==> Before(LatestAfter(log', i)[p.key].stamp, p.stamp)
    {
      LatestAfterPrefix(log, e, i);
    }
  }

  lemma UpdateReflects(store: Store, log: seq<Event>, u: Update)
    requires Reflects(store, log)
    ensures var (store', log') := Updated(store, log, u); Reflects(store', log') && (log' == log || exists e :: log' == log + [e])
  {
    hide LatestAfter, Chronological;
    match u
    case Publish(p, report, analysis) =>
      if !store.closed && Bound(p, report, analysis) && Newer(store, p) { EventReflects(store, Published(store, p), log, Workspace(p)); }
    case FeedPacket(packet, at, capacity) =>
      if TickAccepted(store, packet, at, capacity) { EventReflects(store, Ticked(store, packet, at), log, FeedTick(packet.securityId)); }
    case CloseStore =>
  }

  class MarketReadModelStore {
    const maximumTickInstruments: nat
    var latest: map<Key, Publication>
    var ticks: map<string, Tick>
    var revision: nat
    var closed: bool
    ghost var log: seq<Event>

    function Value(): Store
      reads this
    {
      Store(latest, ticks, revision, closed)
    }

    ghost predicate Valid()
      reads this
    {
      Reflects(Value(), log)
    }

    constructor (capacity: nat)
      ensures Valid() && Value() == Store(map[], map[], 0, false) && log == [] && maximumTickInstruments == capacity
    {
      maximumTickInstruments := capacity;
      latest, ticks, revision, closed, log := map[], map[], 0, false, [];
    }

    /** Promotes a publication unless it is delayed or repeated; a report or analysis of another
        snapshot is an error, and so is a closed store. */
    method PublishSnapshot(p: Publication, report: Report, analysis: Option<Analysis>) returns (accepted: Result<bool>)
      requires Valid()
      modifies this
      ensures Valid() && (Value(), log) == Updated(old(Value()), old(log), Publish(p, report, analysis))
      ensures accepted.Err? <==> !Bound(p, report, analysis) || old(closed)
      ensures accepted == Ok(true) <==> log == old(log) + [Workspace(p)]
      ensures accepted == Ok(true) ==> latest == old(latest)[p.key := p] && revision == old(revision) + 1
      ensures accepted != Ok(true) ==> Value() == old(Value())
      ensures accepted.Ok? && p.key !in old(latest) ==> accepted.value
      ensures accepted.Ok? && p.key in old(latest) ==>
        var kept := old(latest)[p.key].stamp;
        && (p.stamp.sourceTime > kept.sourceTime ==> accepted.value)
        && (p.stamp.sourceTime < kept.sourceTime ==> !accepted.value)
        && (p.stamp.sourceTime == kept.sourceTime && p.stamp.sequence > kept.sequence ==> accepted.value)
        && (p.stamp.sourceTime == kept.sourceTime && p.stamp.sequence < kept.sequence ==> !accepted.value)
        && (p.stamp.sourceTime == kept.sourceTime && p.stamp.sequence == kept.sequence ==>
              (accepted.value <==> p.stamp.receivedAt > kept.receivedAt))
      ensures forall i :: 0 <= i < |log| && log[i].Workspace? ==>
        var q := log[i].publication; q.key in latest && latest[q.key].stamp.sourceTime >= q.stamp.sourceTime
      ensures forall i :: 0 <= i < |log| && log[i].Workspace? ==>
        var q := log[i].publication; q.key in latest && (latest[q.key] == q || Before(q.stamp, latest[q.key].stamp))
    {
      UpdateReflects(Value(), log, Publish(p, report, analysis));
      accepted := Promote(p, report, analysis);
      forall i | 0 <= i < |log| && log[i].Workspace?
        ensures var q := log[i].publication; q.key in latest && (latest[q.key] == q || Before(q.stamp, latest[q.key].stamp))
      {
        PublicationKept(log, i, |log|);
      }
      forall i | 0 <= i < |log| && log[i].Workspace?
        ensures var q := log[i].publication; q.key in latest && latest[q.key].stamp.sourceTime >= q.stamp.sourceTime
      {
        NewestKept(log, i, |log|);
      }
    }

    method Promote(p: Publication, report: Report, analysis: Option<Analysis>) returns (accepted: Result<bool>)
      modifies this
      ensures (Value(), log) == Updated(old(Value()), old(log), Publish(p, report, analysis))
      ensures accepted.Err? <==> !Bound(p, report, analysis) || old(closed)
      ensures accepted == Ok(true) <==> log == old(log) + [Workspace(p)]
      ensures accepted.Ok? ==> (accepted.value <==> Newer(old(Value()), p))
    {
      if !Bound(p, report, analysis) { return Err("not bound to the published snapshot"); }
      if closed { return Err("market read model is closed"); }
      if p.key in latest && !Before(latest[p.key].stamp, p.stamp) { return Ok(false); }
      latest := latest[p.key := p];
      revision := revision + 1;
      log := log + [Workspace(p)];
      return Ok(true);
    }

    /** Merges a tick; an invalid depth level of an otherwise usable packet is an error. */
    method PublishFeedTick(packet: Packet, at: int) returns (accepted: Result<bool>)
      requires Valid()
      modifies this
      ensures Valid() && (Value(), log) == Updated(old(Value()), old(log), FeedPacket(packet, at, maximumTickInstruments))
      ensures accepted.Err? <==> Usable(packet) && !packet.depthValid
      ensures accepted == Ok(true) <==> revision == old(revision) + 1
      ensures latest == old(latest)
    {
      UpdateReflects(Value(), log, FeedPacket(packet, at, maximumTickInstruments));
      if !Usable(packet) { return Ok(false); }
      if !packet.depthValid { return Err("feed depth contains an invalid numeric value"); }
      var id := packet.securityId;
      if closed || !Known(Value(), id) { return Ok(false); }
      var observed := at;
      if Primary(packet) {
        if id in ticks && at <= ticks[id].observedAt { return Ok(false); }
      } else {
        if id !in ticks { return Ok(false); }
        observed := ticks[id].observedAt;
      }
      if id !in ticks && |ticks| >= maximumTickInstruments { return Ok(false); }
      revision := revision + 1;
      ticks := ticks[id := Tick(observed, at, revision)];
      log := log + [FeedTick(id)];
      return Ok(true);
    }

    method Close()
      requires Valid()
      modifies this
      ensures Valid() && (Value(), log) == Updated(old(Value()), old(log), CloseStore)
    {
      closed := true;
    }
  }

  // ----- the client and the route -----

  /** Where one pass of the browser loop stands. `At*` values travel from server to client. */
  datatype Pc =
    | NeedStatus | StatusAt(revision: nat)
    | NeedCatalog | CatalogAt(keys: set<Key>, at: nat)
    | NeedWorkspace | WorkspaceAt(view: Option<Publication>, at: nat)
    | SendWait | Waiting(after: nat) | WaitEnded(after: nat) | UpdateAt(revision: nat)

  /** `catalogAt` and `readAt` are the store revisions at which the shown catalog and workspace were
      read. Without a selection the client shows the catalog alone. */
  datatype Client = Client(
    selection: Option<Selection>, revision: nat, catalog: set<Key>, catalogAt: nat, workspace: Option<Publication>, readAt: nat, pc: Pc)

  datatype Sys = Sys(store: Store, log: seq<Event>, client: Client, resetSent: bool)

  datatype Action =
    | Serve(update: Update)
    | Step(view: Option<Publication>)  // the client or its request moves on; `view` is what a workspace read returns
    | WaitTimeout                      // the long poll times out
    | Retry                            // a failed request, an empty catalog or a missing expiry: back to the top

  predicate WaitOver(s: Store, after: nat) {
    s.closed || s.revision > after
  }

  function Max(a: nat, b: nat): nat {
    if a < b then b else a
  }

  function StepClient(s: Sys, view: Option<Publication>): Sys {
    var c := s.client;
    match c.pc
    case NeedStatus => s.(client := c.(pc := StatusAt(s.store.revision)))
    case StatusAt(r) => s.(client := c.(revision := Max(c.revision, r), pc := NeedCatalog))
    case NeedCatalog => s.(client := c.(pc := CatalogAt(s.store.latest.Keys, s.store.revision)))
    case CatalogAt(keys, at) =>
      var shown := c.(catalog := keys, catalogAt := at);
      if c.selection.Some? then s.(client := shown.(pc := NeedWorkspace))
      else s.(client := shown.(workspace := None, pc := if keys == {} then NeedStatus else SendWait))
    case NeedWorkspace => s.(client := c.(pc := WorkspaceAt(view, s.store.revision)))
    case WorkspaceAt(v, at) =>
      // A missing workspace is a 404, handled like any failure.
      if v.None? then s.(client := c.(pc := NeedStatus))
      else s.(client := c.(workspace := v, readAt := at, pc := SendWait))
    case SendWait =>
      if c.revision > s.store.revision
      then s.(client := c.(pc := UpdateAt(s.store.revision)), resetSent := true)
      else s.(client := c.(pc := Waiting(c.revision)))
    case Waiting(after) => if WaitOver(s.store, after) then s.(client := c.(pc := WaitEnded(after))) else s
    case WaitEnded(_) => s.(client := c.(pc := UpdateAt(s.store.revision)))
    case UpdateAt(r) => s.(client := c.(revision := Max(c.revision, r), pc := NeedStatus))
  }

  function Apply(s: Sys, a: Action): Sys {
    match a
    case Serve(u) => var (store, log) := Updated(s.store, s.log, u); s.(store := store, log := log)
    case Step(view) => StepClient(s, view)
    case WaitTimeout => if s.client.pc.Waiting? then s.(client := s.client.(pc := WaitEnded(s.client.pc.after))) else s
    case Retry => s.(client := s.client.(pc := NeedStatus))
  }

  /** The environment answers a workspace read from the store as it is at that moment. */
  ghost predicate Allowed(s: Sys, a: Action) {
    a.Step? && s.client.pc.NeedWorkspace? ==> Resolves(s.store.latest, s.client.selection, a.view)
  }

  function Initial(selection: Option<Selection>): Sys {
    Sys(Store(map[], map[], 0, false), [], Client(selection, 0, {}, 0, None, 0, NeedStatus), false)
  }

  /** A run from a fresh server and a fresh client. */
  function Run(selection: Option<Selection>, actions: seq<Action>): Sys {
    if actions == [] then Initial(selection)
    else Apply(Run(selection, actions[..|actions| - 1]), actions[|actions| - 1])
  }

  /** Every workspace read of the run was answered from the store of that moment. */
  ghost predicate Faithful(selection: Option<Selection>, actions: seq<Action>) {
    actions != [] ==>
      && Faithful(selection, actions[..|actions| - 1])
      && Allowed(Run(selection, actions[..|actions| - 1]), actions[|actions| - 1])
  }

  // ----- invariant -----

  ghost predicate ReadOk(s: Sys, view: Option<Publication>, at: nat) {
    at <= |s.log| && Resolves(LatestAfter(s.log, at), s.client.selection, view)
  }

  ghost predicate CatalogOk(s: Sys, keys: set<Key>, at: nat) {
    at <= |s.log| && keys == LatestAfter(s.log, at).Keys
  }

  /** What is shown was read at or after the revision the client knows of. */
  ghost predicate UpToDate(s: Sys) {
    var c := s.client;
    && CatalogOk(s, c.catalog, c.catalogAt) && c.revision <= c.catalogAt
    && (c.selection.None? ==> c.workspace.None?)
    && (c.selection.Some? ==> c.workspace.Some? && ReadOk(s, c.workspace, c.readAt) && c.revision <= c.readAt)
  }

  ghost predicate ClientOk(s: Sys) {
    var c := s.client;
    && c.revision <= s.store.revision
    && match c.pc
       case StatusAt(r) => r <= s.store.revision
       case CatalogAt(keys, at) => CatalogOk(s, keys, at) && c.revision <= at
       case NeedWorkspace => c.selection.Some? && CatalogOk(s, c.catalog, c.catalogAt) && c.revision <= c.catalogAt
       case WorkspaceAt(v, at) =>
         && c.selection.Some? && CatalogOk(s, c.catalog, c.catalogAt) && c.revision <= c.catalogAt
         && ReadOk(s, v, at) && c.revision <= at
       case SendWait => UpToDate(s)
       case Waiting(after) => UpToDate(s) && after == c.revision
       case WaitEnded(after) => UpToDate(s) && after == c.revision
       case UpdateAt(r) => r <= s.store.revision
       case _ => true
  }

  ghost predicate Inv(s: Sys) {
    Reflects(s.store, s.log) && ClientOk(s) && !s.resetSent
  }

  lemma ReadStays(s: Sys, s': Sys, e: Event, view: Option<Publication>, at: nat)
    requires ReadOk(s, view, at) && s'.log == s.log + [e] && s'.client == s.client
    ensures ReadOk(s', view, at)
  {
    LatestAfterPrefix(s.log, e, at);
  }

  lemma CatalogStays(s: Sys, s': Sys, e: Event, keys: set<Key>, at: nat)
    requires CatalogOk(s, keys, at) && s'.log == s.log + [e]
    ensures CatalogOk(s', keys, at)
  {
    LatestAfterPrefix(s.log, e, at);
  }

  /** An accepted event keeps what was read before. */
  lemma EventKeepsClient(s: Sys, s': Sys, e: Event)
    requires ClientOk(s) && s'.client == s.client && s'.log == s.log + [e] && s'.store.revision >= s.store.revision
    ensures ClientOk(s')
  {
    hide ReadOk, CatalogOk;
    var c := s.client;
    if CatalogOk(s, c.catalog, c.catalogAt) { CatalogStays(s, s', e, c.catalog, c.catalogAt); }
    if c.pc.CatalogAt? { CatalogStays(s, s', e, c.pc.keys, c.pc.at); }
    if ReadOk(s, c.workspace, c.readAt) { ReadStays(s, s', e, c.workspace, c.readAt); }
    if c.pc.WorkspaceAt? { ReadStays(s, s', e, c.pc.view, c.pc.at); }
  }

  lemma ServeInv(s: Sys, u: Update)
    requires Inv(s)
    ensures Inv(Apply(s, Serve(u)))
  {
    hide Reflects, ReadOk, CatalogOk, ClientOk;
    UpdateReflects(s.store, s.log, u);
    var s' := Apply(s, Serve(u));
    Revisions(s.store, s.log);
    Revisions(s'.store, s'.log);
    if s'.log == s.log {
      SameLog(s, s');
    } else {
      var e :| s'.log == s.log + [e];
      EventKeepsClient(s, s', e);
    }
  }

  lemma Revisions(store: Store, log: seq<Event>)
    requires Reflects(store, log)
    ensures store.revision == |log|
  {
  }

  lemma SameLog(s: Sys, s': Sys)
    requires ClientOk(s) && s'.client == s.client && s'.log == s.log && s'.store.revision == s.store.revision
    ensures ClientOk(s')
  {
  }

  lemma StepInv(s: Sys, view: Option<Publication>)
    requires Inv(s) && Allowed(s, Step(view))
    ensures Inv(StepClient(s, view))
  {
    hide Resolves, LatestAfter, Chronological;
  }

  lemma ApplyInv(s: Sys, a: Action)
    requires Inv(s) && Allowed(s, a)
    ensures Inv(Apply(s, a))
  {
    hide Allowed, Reflects, StepClient, Resolves, LatestAfter, Updated;
    match a
    case Serve(u) => ServeInv(s, u);
    case Step(view) => StepInv(s, view);
    case WaitTimeout =>
    case Retry =>
  }

  lemma {:induction false} RunInv(selection: Option<Selection>, actions: seq<Action>)
    requires Faithful(selection, actions)
    ensures Inv(Run(selection, actions)) && Run(selection, actions).client.selection == selection
  {
    hide Apply, Allowed;
    if actions == [] {
      StartInv(selection);
    } else {
      var earlier, last := actions[..|actions| - 1], actions[|actions| - 1];
      RunInv(selection, earlier);
      ApplyInv(Run(selection, earlier), last);
      SelectionFixed(Run(selection, earlier), last);
    }
  }

  lemma StartInv(selection: Option<Selection>)
    ensures Inv(Initial(selection))
  {
  }

  lemma SelectionFixed(s: Sys, a: Action)
    ensures Apply(s, a).client.selection == s.client.selection
  {
  }

  /** No lost update: whenever the client waits, the catalog and the selected workspace it shows were
      read at or after the revision it sends, so each publication either is behind them (its key is
      listed, and was read as this publication or a newer one) or makes the wait return; and no
      reset is sent. Without a selection the same holds of the catalog. */
  lemma NoLostUpdate(selection: Option<Selection>, actions: seq<Action>, s: Sys, i: nat)
    requires Faithful(selection, actions) && s == Run(selection, actions) && s.client.pc.Waiting?
    requires i < |s.log| && s.log[i].Workspace?
    ensures !s.resetSent
    ensures s.client.pc.after <= s.client.catalogAt <= |s.log|
    ensures selection.Some? ==> s.client.workspace.Some? && s.client.pc.after <= s.client.readAt <= |s.log|
    ensures selection.Some? ==> Resolves(LatestAfter(s.log, s.client.readAt), selection, s.client.workspace)
    ensures s.log[i].publication.key in s.client.catalog || WaitOver(s.store, s.client.pc.after)
    ensures var p := s.log[i].publication;
      selection.Some? ==>
        || WaitOver(s.store, s.client.pc.after)
        || (p.key in LatestAfter(s.log, s.client.readAt)
            && (LatestAfter(s.log, s.client.readAt)[p.key] == p || Before(p.stamp, LatestAfter(s.log, s.client.readAt)[p.key].stamp)))
  {
    hide Resolves, Run, Faithful;
    RunInv(selection, actions);
    if i < s.client.catalogAt { PublicationKept(s.log, i, s.client.catalogAt); }
    if selection.Some? && i < s.client.readAt { PublicationKept(s.log, i, s.client.readAt); }
  }

  /** A wait that cannot return means the client already shows what the store would serve now. */
  lemma BlockedIsCurrent(selection: Option<Selection>, actions: seq<Action>, s: Sys)
    requires Faithful(selection, actions) && s == Run(selection, actions) && s.client.pc.Waiting? && !WaitOver(s.store, s.client.pc.after)
    ensures s.client.catalog == s.store.latest.Keys
    ensures Resolves(s.store.latest, selection, s.client.workspace) && (selection.Some? <==> s.client.workspace.Some?)
  {
    hide Run, Faithful;
    RunInv(selection, actions);
  }

  /** A wait returns exactly when the store is closed or something happened after the revision waited
      on; what the client learns never takes it back; the route asks for a reset exactly when the client
      is ahead of the store; an empty catalog without a selection and a missing workspace send the
      client back to the top. */
  lemma ClientLaw(s: Sys, view: Option<Publication>)
    requires s.store.revision == |s.log|
    ensures var c, c' := s.client, StepClient(s, view).client;
      && (c.pc.Waiting? ==>
            (c'.pc.WaitEnded? <==> s.store.closed || |s.log| > c.pc.after) && (!c'.pc.WaitEnded? ==> c' == c))
      && c'.revision >= c.revision
      && (c.pc.StatusAt? || c.pc.UpdateAt? ==> c'.revision >= c.pc.revision && c'.revision in {c.revision, c.pc.revision})
      && (!c.pc.StatusAt? && !c.pc.UpdateAt? ==> c'.revision == c.revision)
      && (c.pc.CatalogAt? ==> c'.catalog == c.pc.keys && c'.catalogAt == c.pc.at)
      && (c.pc.CatalogAt? ==> (c'.pc.NeedWorkspace? <==> c.selection.Some?))
      && (c.pc.CatalogAt? ==> (c'.pc.NeedStatus? <==> c.selection.None? && c.pc.keys == {}))
      && (c.pc.WorkspaceAt? ==> (c'.pc.SendWait? <==> c.pc.view.Some?) && (c.pc.view.Some? ==> c'.workspace == c.pc.view && c'.readAt == c.pc.at))
      && (c.pc.SendWait? ==> (StepClient(s, view).resetSent <==> s.resetSent || c.revision > |s.log|))
  {
  }

  /** What a blocked client shows has the largest source time of all that it could show. */
  lemma ShownIsNewest(selection: Selection, actions: seq<Action>, s: Sys, k: Key)
    requires Faithful(Some(selection), actions) && s == Run(Some(selection), actions) && s.client.pc.Waiting?
    requires !WaitOver(s.store, s.client.pc.after) && k in s.store.latest && Matches(selection, s.store.latest[k])
    ensures s.client.workspace.Some? && s.client.workspace.value.stamp.sourceTime >= s.store.latest[k].stamp.sourceTime
  {
    hide Run, Faithful, Matches;
    BlockedIsCurrent(Some(selection), actions, s);
  }

  /** Within one server lifetime the route never asks the client to reset. */
  lemma NeverReset(selection: Option<Selection>, actions: seq<Action>, s: Sys)
    requires Faithful(selection, actions) && s == Run(selection, actions)
    ensures !s.resetSent
  {
    RunInv(selection, actions);
  }
}
