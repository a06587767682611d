/** The live-feed supervisor: one worker thread connects, subscribes, receives and reconnects,
    while other threads stop it, replace its instruments and ask for its health. Every step below
    is one section under the supervisor's lock, or one point where the worker can be overtaken. */
module FeedSupervisor {
  import opened Outcomes

  datatype MarketStatus = UnknownStatus | OpenMarket | ClosedMarket

  datatype Event =
    | Consumed(key: string, code: nat, at: int, generation: nat)  // the consumer accepted a packet
    | StatusChanged(to: MarketStatus)                             // an explicit market-status change
    | Attempted                                                   // the worker sets out to connect
    | Connected                                                   // a connection was registered

  /** Where the worker stands. The packets of one message are taken without looking at the stop
      event again. */
  datatype Pc =
    | Idle | LoopTop | Connecting | CheckStop | Register | Subscribing | Receiving | InMessage
    | Consuming(key: string, code: nat, at: int) | Accepting(key: string, code: nat, at: int)
    | Failing | Clearing(requested: bool) | BackingOff | Finishing

  /** `quitting` records that the locked part of a stop has run, its event still set, since the
      last start. */
  datatype Feed = Feed(
    expected: set<string>, generation: nat, connected: bool, status: MarketStatus, readyAt: map<string, int>,
    stopEvent: bool, restartEvent: bool, quitting: bool, worker: Pc, log: seq<Event>)

  datatype Config = Config(primary: nat, stale: int)

  /** What the worker meets at its next step. */
  datatype Outside =
    | Proceed                                        // the call succeeded; nothing special arrived
    | Fail                                           // the call raised, or the provider disconnects
    | MessageArrives                                 // a decoded message, its packets to come one by one
    | PacketArrives(key: string, code: nat, at: int)
    | StatusArrives(explicit: Option<MarketStatus>)
    | ConsumerRefuses

  datatype Action =
    | Start
    | RequestStop                       // the stop event is set before the lock is taken
    | StopLocked
    | Replace(instruments: set<string>, reordered: bool)  // the same instruments in another order also resubscribe
    | Worker(outside: Outside)

  // ----- the sections under the lock -----

  function Disconnect(f: Feed): Feed {
    f.(connected := false, readyAt := map[])
  }

  function Begun(f: Feed): Feed {
    Disconnect(f).(restartEvent := false, status := UnknownStatus, log := f.log + [Attempted])
  }

  function Registered(f: Feed): Feed {
    f.(restartEvent := false, connected := true, generation := f.generation + 1, log := f.log + [Connected])
  }

  /** Only a primary packet of an instrument still expected makes it ready. */
  function Accepted(cfg: Config, f: Feed, key: string, code: nat, at: int): Feed {
    if key in f.expected && code == cfg.primary then f.(readyAt := f.readyAt[key := at]) else f
  }

  /** An explicit change of market status invalidates every earlier price. */
  function StatusTold(f: Feed, explicit: Option<MarketStatus>): Feed {
    if explicit.Some? && explicit.value != f.status
    then f.(status := explicit.value, readyAt := map[], log := f.log + [StatusChanged(explicit.value)])
    else f
  }

  function Replaced(f: Feed, instruments: set<string>, reordered: bool): Feed {
    if (instruments == f.expected && !reordered) || instruments == {} then f
    else f.(expected := instruments, readyAt := map[], restartEvent := f.restartEvent || !f.worker.Idle?)
  }

  // ----- the worker and its callers -----

  function StepWorker(cfg: Config, f: Feed, o: Outside): Feed {
    match f.worker
    case Idle => f
    case LoopTop => if f.stopEvent then f.(worker := Finishing) else Begun(f).(worker := Connecting)
    case Connecting => f.(worker := if o.Fail? then Failing else CheckStop)
    case CheckStop => f.(worker := if f.stopEvent then Clearing(false) else Register)
    case Register => Registered(f).(worker := Subscribing)
    case Subscribing => f.(worker := if o.Fail? then Failing else Receiving)
    case Receiving =>
      if f.stopEvent then f.(worker := Clearing(false))
      else f.(worker := if o.Fail? then Failing else if o.MessageArrives? then InMessage else Receiving)
    case InMessage =>
      (match o
       case PacketArrives(key, code, at) => if key in f.expected then f.(worker := Consuming(key, code, at)) else f
       case StatusArrives(explicit) => StatusTold(f, explicit)
       case Fail => f.(worker := Failing)
       case _ => f.(worker := Receiving))
    case Consuming(key, code, at) =>
      (match o
       case Fail => f.(worker := Failing)
       case ConsumerRefuses => f.(worker := InMessage)
       case _ => f.(worker := Accepting(key, code, at), log := f.log + [Consumed(key, code, at, f.generation)]))
    case Accepting(key, code, at) => Accepted(cfg, f, key, code, at).(worker := InMessage)
    case Failing =>
      if f.restartEvent then f.(restartEvent := false, worker := Clearing(true))
      else if f.stopEvent then f.(worker := Clearing(false))
      else Disconnect(f).(worker := Clearing(false))
    case Clearing(requested) =>
      Disconnect(f).(worker := if f.stopEvent then Finishing else if requested then LoopTop else BackingOff)
    case BackingOff => f.(worker := LoopTop)
    case Finishing => Disconnect(f).(worker := Idle)
  }

  function Apply(cfg: Config, f: Feed, a: Action): Feed {
    match a
    case Start => if f.worker.Idle? then f.(stopEvent := false, restartEvent := false, quitting := false, worker := LoopTop) else f
    case RequestStop => f.(stopEvent := true)
    case StopLocked => Disconnect(f).(quitting := f.quitting || f.stopEvent)
    case Replace(instruments, reordered) => Replaced(f, instruments, reordered)
    case Worker(o) => StepWorker(cfg, f, o)
  }

  function Run(cfg: Config, instruments: set<string>, actions: seq<Action>): Feed {
    if actions == [] then Feed(instruments, 0, false, UnknownStatus, map[], false, false, false, Idle, [])
    else Apply(cfg, Run(cfg, instruments, actions[..|actions| - 1]), actions[|actions| - 1])
  }

  // ----- health -----

  function FreshKeys(cfg: Config, f: Feed, now: int): set<string> {
    set k | k in f.readyAt && 0 <= now - f.readyAt[k] <= cfg.stale
  }

  predicate Healthy(cfg: Config, f: Feed, now: int) {
    f.connected && f.status != ClosedMarket && FreshKeys(cfg, f, now) == f.expected
  }

  predicate InstrumentsHealthy(cfg: Config, f: Feed, now: int, requested: set<string>) {
    && f.connected && f.status != ClosedMarket
    && requested <= f.expected && requested <= FreshKeys(cfg, f, now)
  }

  // ----- invariant -----

  /** The consumer accepted such a packet on this generation, and since then neither the market
      status changed nor was another connection made. */
  ghost predicate AcceptedSince(log: seq<Event>, generation: nat, key: string, code: nat, at: int) {
    exists i :: 0 <= i < |log| && log[i] == Consumed(key, code, at, generation)
                && forall k :: i < k < |log| ==> log[k].Consumed?
  }

  /** The market status that the history tells: the last explicit one of this connection attempt. */
  ghost function StatusOf(log: seq<Event>): MarketStatus {
    if log == [] then UnknownStatus
    else
      match log[|log| - 1]
      case Attempted => UnknownStatus
      case StatusChanged(to) => to
      case _ => StatusOf(log[..|log| - 1])
  }

  /** How many connections were made. */
  ghost function Connections(log: seq<Event>): nat {
    if log == [] then 0 else Connections(log[..|log| - 1]) + if log[|log| - 1].Connected? then 1 else 0
  }

  lemma HistoryStep(log: seq<Event>, e: Event)
    ensures StatusOf(log + [e]) == (match e case Attempted => UnknownStatus case StatusChanged(to) => to case _ => StatusOf(log))
    ensures Connections(log + [e]) == Connections(log) + if e.Connected? then 1 else 0
  {
    assert (log + [e])[..|log|] == log;
  }

  /** Status and generation are what the history says. */
  ghost predicate Told(f: Feed) {
    f.status == StatusOf(f.log) && f.generation == Connections(f.log)
  }

  lemma AcceptedStays(log: seq<Event>, e: Event, generation: nat, key: string, code: nat, at: int)
    requires AcceptedSince(log, generation, key, code, at) && e.Consumed?
    ensures AcceptedSince(log + [e], generation, key, code, at)
  {
    var i :| 0 <= i < |log| && log[i] == Consumed(key, code, at, generation)
             && forall k :: i < k < |log| ==> log[k].Consumed?;
    assert (log + [e])[i] == log[i];
  }

  lemma AcceptedNow(log: seq<Event>, generation: nat, key: string, code: nat, at: int)
    ensures AcceptedSince(log + [Consumed(key, code, at, generation)], generation, key, code, at)
  {
    assert (log + [Consumed(key, code, at, generation)])[|log|] == Consumed(key, code, at, generation);
  }

  ghost predicate ReadyOk(cfg: Config, f: Feed) {
    forall k :: k in f.readyAt ==> k in f.expected && AcceptedSince(f.log, f.generation, k, cfg.primary, f.readyAt[k])
  }

  ghost predicate WorkerOk(f: Feed) {
    match f.worker
    case Accepting(key, code, at) => AcceptedSince(f.log, f.generation, key, code, at)
    case Connecting => f.readyAt == map[]
    case CheckStop => f.readyAt == map[]
    case Register => f.readyAt == map[]
    case Subscribing => f.readyAt == map[]
    case _ => true
  }

  /** After a stop, a connection registered too late is never used. */
  ghost predicate QuitOk(f: Feed) {
    f.quitting ==> f.stopEvent && (f.connected ==> f.readyAt == map[] && !f.worker.InMessage? && !f.worker.Consuming? && !f.worker.Accepting?)
  }

  ghost predicate Inv(cfg: Config, f: Feed) {
    f.expected != {} && ReadyOk(cfg, f) && WorkerOk(f) && QuitOk(f) && Told(f)
  }

  lemma ConsumeInv(cfg: Config, f: Feed, key: string, code: nat, at: int)
    requires Inv(cfg, f) && f.worker == Consuming(key, code, at)
    ensures Inv(cfg, f.(worker := Accepting(key, code, at), log := f.log + [Consumed(key, code, at, f.generation)]))
  {
    hide AcceptedSince, StatusOf, Connections;
    var e := Consumed(key, code, at, f.generation);
    HistoryStep(f.log, e);
    AcceptedNow(f.log, f.generation, key, code, at);
    forall k | k in f.readyAt ensures AcceptedSince(f.log + [e], f.generation, k, cfg.primary, f.readyAt[k]) {
      AcceptedStays(f.log, e, f.generation, k, cfg.primary, f.readyAt[k]);
    }
  }

  lemma CallerInv(cfg: Config, f: Feed, a: Action)
    requires Inv(cfg, f) && !a.Worker?
    ensures Inv(cfg, Apply(cfg, f, a))
  {
    hide AcceptedSince, StatusOf, Connections;
  }

  lemma ReceiveInv(cfg: Config, f: Feed, o: Outside)
    requires Inv(cfg, f) && (f.worker.InMessage? || f.worker.Accepting?)
    ensures Inv(cfg, StepWorker(cfg, f, o))
  {
    hide AcceptedSince, StatusOf, Connections;
    if o.StatusArrives? && o.explicit.Some? { HistoryStep(f.log, StatusChanged(o.explicit.value)); }
  }

  /** The steps up to a subscribed connection. */
  predicate Preparing(pc: Pc) {
    pc.LoopTop? || pc.Connecting? || pc.CheckStop? || pc.Register? || pc.Subscribing?
  }

  lemma PrepareInv(cfg: Config, f: Feed, o: Outside)
    requires Inv(cfg, f) && Preparing(f.worker)
    ensures Inv(cfg, StepWorker(cfg, f, o))
  {
    hide AcceptedSince, StatusOf, Connections;
    HistoryStep(f.log, Attempted);
    HistoryStep(f.log, Connected);
  }

  lemma WorkerInv(cfg: Config, f: Feed, o: Outside)
    requires Inv(cfg, f) && !f.worker.InMessage? && !f.worker.Accepting? && !Preparing(f.worker)
    ensures Inv(cfg, StepWorker(cfg, f, o))
  {
    hide AcceptedSince, StatusOf, Connections;
    if f.worker.Consuming? { ConsumeInv(cfg, f, f.worker.key, f.worker.code, f.worker.at); }
  }

  lemma ApplyInv(cfg: Config, f: Feed, a: Action)
    requires Inv(cfg, f)
    ensures Inv(cfg, Apply(cfg, f, a))
  {
    hide Inv, StepWorker;
    if !a.Worker? {
      CallerInv(cfg, f, a);
    } else if f.worker.InMessage? || f.worker.Accepting? {
      ReceiveInv(cfg, f, a.outside);
    } else if Preparing(f.worker) {
      PrepareInv(cfg, f, a.outside);
    } else {
      WorkerInv(cfg, f, a.outside);
    }
  }

  lemma {:induction false} RunInv(cfg: Config, instruments: set<string>, actions: seq<Action>)
    requires instruments != {}
    ensures Inv(cfg, Run(cfg, instruments, actions))
  {
    hide Apply, AcceptedSince;
    if actions != [] {
      RunInv(cfg, instruments, actions[..|actions| - 1]);
      ApplyInv(cfg, Run(cfg, instruments, actions[..|actions| - 1]), actions[|actions| - 1]);
    }
  }

  /** Received no longer ago than the limit, and not in the future. */
  ghost predicate Recent(cfg: Config, f: Feed, key: string, now: int) {
    key in f.readyAt && f.readyAt[key] <= now <= f.readyAt[key] + cfg.stale
  }

  /** In every interleaving, a healthy snapshot means: connected, market not closed, and for each
      instrument now expected, a primary packet that the consumer accepted on the current
      connection, after the last market-status change and within the stale limit. The connection is
      the one counted last, and the status is the last one told on it. */
  lemma HealthyMeansFresh(cfg: Config, instruments: set<string>, actions: seq<Action>, now: int, key: string)
    requires instruments != {} && Healthy(cfg, Run(cfg, instruments, actions), now)
    requires key in Run(cfg, instruments, actions).expected
    ensures var f := Run(cfg, instruments, actions);
      && f.connected && StatusOf(f.log) != ClosedMarket && Recent(cfg, f, key, now)
      && f.generation == Connections(f.log)
      && AcceptedSince(f.log, f.generation, key, cfg.primary, f.readyAt[key])
  {
    hide Run, AcceptedSince, StatusOf, Connections;
    RunInv(cfg, instruments, actions);
    assert key in FreshKeys(cfg, Run(cfg, instruments, actions), now);
  }

  /** Nothing else makes a snapshot unhealthy: it is healthy exactly when the feed is connected, the
      last status told is not closed, and every expected instrument is recent; and for a subset the
      same of that subset, which must be expected. */
  lemma HealthyExactly(cfg: Config, instruments: set<string>, actions: seq<Action>, now: int, requested: set<string>)
    requires instruments != {}
    ensures var f := Run(cfg, instruments, actions);
      && (Healthy(cfg, f, now) <==>
            f.connected && StatusOf(f.log) != ClosedMarket && forall key :: key in f.expected ==> Recent(cfg, f, key, now))
      && (InstrumentsHealthy(cfg, f, now, requested) <==>
            f.connected && StatusOf(f.log) != ClosedMarket && forall key :: key in requested ==> key in f.expected && Recent(cfg, f, key, now))
  {
    hide Run, AcceptedSince, StatusOf, Connections;
    RunInv(cfg, instruments, actions);
    var f := Run(cfg, instruments, actions);
    forall key ensures key in FreshKeys(cfg, f, now) <==> Recent(cfg, f, key, now) {}
    assert FreshKeys(cfg, f, now) <= f.expected;
  }

  // ----- getting healthy -----

  /** The actions by which the worker takes one primary packet of each instrument, accepted by the
      consumer. */
  function Packets(cfg: Config, keys: seq<string>, at: int): seq<Action> {
    if keys == [] then []
    else Packets(cfg, keys[..|keys| - 1], at)
         + [Worker(PacketArrives(keys[|keys| - 1], cfg.primary, at)), Worker(Proceed), Worker(Proceed)]
  }

  /** Start, set out, connect, look for a stop, register, subscribe, and receive a message. */
  const CONNECT: seq<Action> :=
    [Start, Worker(Proceed), Worker(Proceed), Worker(Proceed), Worker(Proceed), Worker(Proceed), Worker(MessageArrives)]

  lemma {:induction false} RunConcat(cfg: Config, instruments: set<string>, actions: seq<Action>, more: seq<Action>, a: Action)
    ensures Run(cfg, instruments, actions + (more + [a])) == Apply(cfg, Run(cfg, instruments, actions + more), a)
  {
    hide Apply;
    var all := actions + (more + [a]);
    assert all == (actions + more) + [a];
    assert all[..|all| - 1] == actions + more;
  }

  ghost predicate TakingPackets(f: Feed, instruments: set<string>) {
    f.worker.InMessage? && f.connected && f.status == UnknownStatus && f.expected == instruments
  }

  lemma Connects(cfg: Config, instruments: set<string>, actions: seq<Action>)
    requires Run(cfg, instruments, actions).worker.Idle?
    ensures var f := Run(cfg, instruments, actions + CONNECT);
      && TakingPackets(f, Run(cfg, instruments, actions).expected)
      && f.generation == Run(cfg, instruments, actions).generation + 1
  {
    hide Run;
    assert actions + CONNECT[..0] == actions;
    var i := 0;
    while i < 7
      invariant 0 <= i <= 7
      invariant var f, g := Run(cfg, instruments, actions + CONNECT[..i]), Run(cfg, instruments, actions);
        && f.expected == g.expected && (i > 0 ==> !f.stopEvent)
        && f.generation == (if i >= 5 then g.generation + 1 else g.generation)
        && (i >= 2 ==> f.status == UnknownStatus) && (i >= 5 ==> f.connected)
        && f.worker == (match i case 0 => Idle case 1 => LoopTop case 2 => Connecting case 3 => CheckStop case 4 => Register
                        case 5 => Subscribing case 6 => Receiving case _ => InMessage)
    {
      RunConcat(cfg, instruments, actions, CONNECT[..i], CONNECT[i]);
      assert CONNECT[..i + 1] == CONNECT[..i] + [CONNECT[i]];
      i := i + 1;
    }
    assert CONNECT[..7] == CONNECT;
  }

  lemma {:induction false} TakesPackets(cfg: Config, instruments: set<string>, actions: seq<Action>, keys: seq<string>, at: int)
    requires var f := Run(cfg, instruments, actions); TakingPackets(f, f.expected)
    requires forall i :: 0 <= i < |keys| ==> keys[i] in Run(cfg, instruments, actions).expected
    ensures var f := Run(cfg, instruments, actions + Packets(cfg, keys, at));
      && TakingPackets(f, Run(cfg, instruments, actions).expected)
      && forall i :: 0 <= i < |keys| ==> keys[i] in f.readyAt && f.readyAt[keys[i]] == at
  {
    hide Run;
    if keys == [] {
      assert actions + [] == actions;
    } else {
      var n := |keys| - 1;
      var before, key := Packets(cfg, keys[..n], at), keys[n];
      TakesPackets(cfg, instruments, actions, keys[..n], at);
      assert forall i :: 0 <= i < n ==> keys[..n][i] == keys[i];
      var one, two := before + [Worker(PacketArrives(key, cfg.primary, at))], before + [Worker(PacketArrives(key, cfg.primary, at)), Worker(Proceed)];
      RunConcat(cfg, instruments, actions, before, Worker(PacketArrives(key, cfg.primary, at)));
      RunConcat(cfg, instruments, actions, one, Worker(Proceed));
      assert one + [Worker(Proceed)] == two;
      RunConcat(cfg, instruments, actions, two, Worker(Proceed));
      assert two + [Worker(Proceed)] == Packets(cfg, keys, at);
    }
  }

  /** Whatever happened before, an idle supervisor that is started, connects undisturbed and gets one
      primary packet of each expected instrument is healthy until the stale limit is over, on a new
      generation. */
  lemma WarmUp(cfg: Config, instruments: set<string>, actions: seq<Action>, keys: seq<string>, at: int, now: int)
    requires instruments != {} && Run(cfg, instruments, actions).worker.Idle?
    requires forall key :: key in Run(cfg, instruments, actions).expected <==> key in keys
    requires at <= now <= at + cfg.stale
    ensures var f := Run(cfg, instruments, actions + CONNECT + Packets(cfg, keys, at));
      && Healthy(cfg, f, now) && f.connected && f.expected == Run(cfg, instruments, actions).expected
  {
    hide Run, Healthy;
    Connects(cfg, instruments, actions);
    TakesPackets(cfg, instruments, actions + CONNECT, keys, at);
    var all := actions + CONNECT + Packets(cfg, keys, at);
    var f := Run(cfg, instruments, all);
    HealthyExactly(cfg, instruments, all, now, {});
    StatusTrue(cfg, instruments, all);
    forall key | key in f.expected ensures Recent(cfg, f, key, now) {
      assert key in keys;
      var i :| 0 <= i < |keys| && keys[i] == key;
      assert f.readyAt[keys[i]] == at;
    }
  }

  lemma StatusTrue(cfg: Config, instruments: set<string>, actions: seq<Action>)
    requires instruments != {}
    ensures var f := Run(cfg, instruments, actions); f.status == StatusOf(f.log) && f.generation == Connections(f.log)
  {
    hide Run, AcceptedSince, StatusOf, Connections;
    RunInv(cfg, instruments, actions);
  }

  /** A failed connection is retried at once after a replacement, and after a pause otherwise. */
  lemma RotationSkipsBackoff(cfg: Config, f: Feed, o: Outside)
    requires f.worker.Failing? && !f.stopEvent
    ensures var f' := StepWorker(cfg, StepWorker(cfg, f, o), o);
      && !f'.connected && f'.readyAt == map[] && !f'.restartEvent
      && f'.worker == (if f.restartEvent then LoopTop else BackingOff)
  {
  }

  /** Once a stop has run, no snapshot is healthy until the next start, even if the worker was
      just about to register a connection or to accept a packet. */
  lemma StoppedNeverHealthy(cfg: Config, instruments: set<string>, actions: seq<Action>, now: int)
    requires instruments != {} && Run(cfg, instruments, actions).quitting
    ensures !Healthy(cfg, Run(cfg, instruments, actions), now)
  {
    hide Run, AcceptedSince, StatusOf, Connections;
    RunInv(cfg, instruments, actions);
    var f := Run(cfg, instruments, actions);
    if f.readyAt == map[] { assert FreshKeys(cfg, f, now) == {}; }
  }

  /** Subset health is monotone and agrees with global health on the full set. */
  lemma SubsetHealth(cfg: Config, instruments: set<string>, actions: seq<Action>, now: int, small: set<string>, large: set<string>)
    requires instruments != {} && small <= large
    ensures var f := Run(cfg, instruments, actions);
      && (InstrumentsHealthy(cfg, f, now, large) ==> InstrumentsHealthy(cfg, f, now, small))
      && (InstrumentsHealthy(cfg, f, now, f.expected) <==> Healthy(cfg, f, now))
  {
    hide Run, AcceptedSince;
    RunInv(cfg, instruments, actions);
    var f := Run(cfg, instruments, actions);
    assert FreshKeys(cfg, f, now) <= f.expected;
  }

  // ----- the supervisor as an object -----

  /** The fields that worker and callers change in place. What the invariant says of every
      interleaving is what `Valid` says of the object between any two of its steps. */
  class Supervisor {
    const cfg: Config
    var expected: set<string>
    var generation: nat
    var connected: bool
    var status: MarketStatus
    var readyAt: map<string, int>
    var stopEvent: bool
    var restartEvent: bool
    var worker: Pc
    ghost var quitting: bool
    ghost var log: seq<Event>

    ghost function Value(): Feed
      reads this
    {
      Feed(expected, generation, connected, status, readyAt, stopEvent, restartEvent, quitting, worker, log)
    }

    ghost predicate Valid()
      reads this
    {
      Inv(cfg, Value())
    }

    constructor (cfg: Config, instruments: set<string>)
      requires instruments != {}
      ensures Valid() && this.cfg == cfg && Value() == Run(cfg, instruments, [])
    {
      this.cfg := cfg;
      expected, generation, connected, status, readyAt := instruments, 0, false, UnknownStatus, map[];
      stopEvent, restartEvent, worker, quitting, log := false, false, Idle, false, [];
    }

    /** An empty subscription is an error; an unchanged one is left alone. */
    method ReplaceInstruments(instruments: set<string>, reordered: bool) returns (changed: Result<bool>)
      requires Valid()
      modifies this
      ensures Valid() && Value() == Apply(cfg, old(Value()), Replace(instruments, reordered))
      ensures changed.Err? <==> instruments == {}
      ensures changed == Ok(true) <==> instruments != {} && (instruments != old(expected) || reordered)
      ensures changed == Ok(true) ==> readyAt == map[] && expected == instruments && restartEvent == (old(restartEvent) || !worker.Idle?)
      ensures changed != Ok(true) ==> Value() == old(Value())
    {
      CallerInv(cfg, Value(), Replace(instruments, reordered));
      if instruments == {} { return Err("at least one instrument is required"); }
      if instruments == expected && !reordered { return Ok(false); }
      expected, readyAt := instruments, map[];
      if !worker.Idle? { restartEvent := true; }
      return Ok(true);
    }

    method StartWorker() returns (started: bool)
      requires Valid()
      modifies this
      ensures Valid() && Value() == Apply(cfg, old(Value()), Start) && started == old(worker).Idle?
    {
      CallerInv(cfg, Value(), Start);
      if !worker.Idle? { return false; }
      stopEvent, restartEvent, quitting, worker := false, false, false, LoopTop;
      return true;
    }

    /** Sets the stop event, then forgets the connection under the lock: from here on no snapshot
        is healthy until the next start. */
    method RequestShutdown()
      requires Valid()
      modifies this
      ensures Valid() && Value() == Apply(cfg, Apply(cfg, old(Value()), RequestStop), StopLocked)
      ensures quitting && !connected
    {
      CallerInv(cfg, Value(), RequestStop);
      CallerInv(cfg, Apply(cfg, Value(), RequestStop), StopLocked);
      stopEvent := true;
      connected, readyAt := false, map[];
      quitting := true;
    }

    /** One step of the worker thread, up to the next point where it can be overtaken. */
    method WorkerStep(o: Outside)
      requires Valid()
      modifies this
      ensures Valid() && Value() == Apply(cfg, old(Value()), Worker(o))
    {
      ApplyInv(cfg, Value(), Worker(o));
      hide Inv, Apply;
      if Preparing(worker) {
        Prepare(o);
      } else if worker.InMessage? {
        TakePacket(o);
      } else if worker.Consuming? || worker.Accepting? {
        HandlePacket(o);
      } else {
        WindDown(o);
      }
    }

    method Prepare(o: Outside)
      requires Preparing(worker)
      modifies this
      ensures Value() == Apply(cfg, old(Value()), Worker(o))
    {
      match worker {
        case LoopTop =>
          if stopEvent {
            worker := Finishing;
          } else {
            restartEvent, connected, readyAt, status, worker := false, false, map[], UnknownStatus, Connecting;
            log := log + [Attempted];
          }
        case Connecting => worker := if o.Fail? then Failing else CheckStop;
        case CheckStop => worker := if stopEvent then Clearing(false) else Register;
        case Register =>
          restartEvent, connected, generation, worker := false, true, generation + 1, Subscribing;
          log := log + [Connected];
        case Subscribing => worker := if o.Fail? then Failing else Receiving;
      }
    }

    /** The consumer's verdict on a packet, and then its acceptance under the lock. */
    method HandlePacket(o: Outside)
      requires worker.Consuming? || worker.Accepting?
      modifies this
      ensures Value() == Apply(cfg, old(Value()), Worker(o))
    {
      match worker {
        case Consuming(key, code, at) =>
          if o.Fail? {
            worker := Failing;
          } else if o.ConsumerRefuses? {
            worker := InMessage;
          } else {
            log := log + [Consumed(key, code, at, generation)];
            worker := Accepting(key, code, at);
          }
        case Accepting(key, code, at) =>
          if key in expected && code == cfg.primary { readyAt := readyAt[key := at]; }
          worker := InMessage;
      }
    }

    /** Waiting for a message, and everything after a connection fails or is given up. */
    method WindDown(o: Outside)
      requires !Preparing(worker) && !worker.InMessage? && !worker.Consuming? && !worker.Accepting?
      modifies this
      ensures Value() == Apply(cfg, old(Value()), Worker(o))
    {
      match worker {
        case Idle =>
        case Receiving =>
          worker := if stopEvent then Clearing(false) else if o.Fail? then Failing else if o.MessageArrives? then InMessage else Receiving;
        case Failing =>
          var requested := restartEvent;
          if requested {
            restartEvent := false;
          } else if !stopEvent {
            connected, readyAt := false, map[];
          }
          worker := Clearing(requested);
        case Clearing(requested) =>
          connected, readyAt := false, map[];
          worker := if stopEvent then Finishing else if requested then LoopTop else BackingOff;
        case BackingOff => worker := LoopTop;
        case Finishing => connected, readyAt, worker := false, map[], Idle;
      }
    }

    /** The next packet of the message in hand, or its end. */
    method TakePacket(o: Outside)
      requires worker.InMessage?
      modifies this
      ensures Value() == Apply(cfg, old(Value()), Worker(o))
    {
      match o {
        case PacketArrives(key, code, at) => if key in expected { worker := Consuming(key, code, at); }
        case StatusArrives(explicit) =>
          if explicit.Some? && explicit.value != status {
            status, readyAt := explicit.value, map[];
            log := log + [StatusChanged(explicit.value)];
          }
        case Fail => worker := Failing;
        case _ => worker := Receiving;
      }
    }

    predicate Fresh(key: string, now: int)
      reads this
    {
      key in readyAt && 0 <= now - readyAt[key] <= cfg.stale
    }

    /** Its readiness stems from a primary packet that the consumer accepted on this generation,
        with no market-status change since. */
    ghost predicate Vouched(key: string)
      reads this
    {
      key in readyAt && AcceptedSince(log, generation, key, cfg.primary, readyAt[key])
    }

    /** A healthy snapshot vouches for every instrument now expected; a stopped supervisor gives
        none. */
    method HealthSnapshot(now: int) returns (healthy: bool)
      requires Valid()
      ensures healthy ==> connected && status != ClosedMarket && !quitting
      ensures healthy ==> forall key :: key in expected ==> Fresh(key, now) && Vouched(key)
      ensures !healthy && connected && status != ClosedMarket ==> exists key :: key in expected && !Fresh(key, now)
    {
      hide AcceptedSince;
      var ready := set k | k in readyAt && 0 <= now - readyAt[k] <= cfg.stale;
      healthy := connected && status != ClosedMarket && ready == expected;
      if healthy {
        forall key | key in expected ensures Fresh(key, now) { assert key in ready; }
      } else if connected && status != ClosedMarket {
        assert ready <= expected;
        var key :| key in expected && key !in ready;
        assert !Fresh(key, now);
      }
    }
  }
}
