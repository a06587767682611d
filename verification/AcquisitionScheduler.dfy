/** The acquisition worker's schedule: which symbols the next provider cycle refreshes, how a
    focus request wakes the sleeping worker, and the rate-limit cooldown that it must not
    shorten. The lock sections and event operations of the worker, of `request_focus`, `stop`
    and `start` are the atomic steps of one interleaving machine. */
module AcquisitionScheduler {
  import opened Outcomes

  // ----- choosing symbols -----

  datatype Schedule = Schedule(focused: Option<string>, pending: bool, cursor: nat)

  predicate Distinct(s: seq<string>) {
    forall i, j :: 0 <= i < j < |s| ==> s[i] != s[j]
  }

  function Background(symbols: seq<string>, focus: string): seq<string> {
    if symbols == [] then []
    else (if symbols[0] == focus then [] else [symbols[0]]) + Background(symbols[1..], focus)
  }

  predicate Changes(symbols: seq<string>, s: Schedule, symbol: string) {
    symbol in symbols && s.focused != Some(symbol)
  }

  function Focused(symbols: seq<string>, s: Schedule, symbol: string): Schedule {
    if Changes(symbols, s, symbol) then s.(focused := Some(symbol), pending := true) else s
  }

  /** The next batch and the schedule after it. */
  function NextBatch(symbols: seq<string>, s: Schedule): (seq<string>, Schedule)
    requires symbols != []
  {
    if |symbols| == 1 then (symbols, s.(pending := false))
    else if s.focused.Some? && s.pending then ([s.focused.value], s.(pending := false))
    else if s.focused.None? then ([symbols[s.cursor % |symbols|]], s.(cursor := (s.cursor + 1) % |symbols|))
    else
      var background := Background(symbols, s.focused.value);
      if background == [] then ([s.focused.value], s)
      else ([s.focused.value, background[s.cursor % |background|]], s.(cursor := (s.cursor + 1) % |background|))
  }

  // ----- rotation -----

  /** The elements that a cursor picks in its next `count` steps. */
  function Rotation(ring: seq<string>, cursor: nat, count: nat): (r: seq<string>)
    requires ring != []
    ensures |r| == count
    decreases count
  {
    if count == 0 then [] else [ring[cursor % |ring|]] + Rotation(ring, (cursor + 1) % |ring|, count - 1)
  }

  function Wrap(x: nat, m: nat): nat {
    if x < m then x else x - m
  }

  lemma NextCursor(c: nat, m: nat)
    requires m > 0
    ensures c % m < m && (c + 1) % m == Wrap(c % m + 1, m)
  {
    var q, r := c / m, c % m;
    assert c == q * m + r;
    if r + 1 < m {
      assert c + 1 == q * m + (r + 1);
    } else {
      assert c + 1 == (q + 1) * m + 0 by { assert (q + 1) * m == q * m + m; }
    }
    DivisionUnique(c + 1, if r + 1 < m then q else q + 1, Wrap(r + 1, m), m);
  }

  lemma DivisionUnique(x: int, q: int, r: nat, m: nat)
    requires m > 0 && x == q * m + r && r < m
    ensures x % m == r
  {
    var p := x / m - q;
    assert (x / m) * m + x % m == x;
    assert p * m == (x / m) * m - q * m;
    assert p * m == r - x % m;
    MultipleSize(p, m);
  }

  lemma MultipleSize(p: int, m: nat)
    ensures p >= 1 ==> p * m >= m
    ensures p <= -1 ==> p * m + m <= 0
  {
    if p >= 1 {
      assert p * m == (p - 1) * m + m;
    } else if p <= -1 {
      assert p * m + m == (p + 1) * m;
    }
  }

  lemma {:induction false} RotationAt(ring: seq<string>, cursor: nat, count: nat, k: nat)
    requires k < count && k < |ring|
    ensures Rotation(ring, cursor, count)[k] == ring[Wrap(cursor % |ring| + k, |ring|)]
    decreases count
  {
    NextCursor(cursor, |ring|);
    if k > 0 {
      RotationAt(ring, (cursor + 1) % |ring|, count - 1, k - 1);
      NextCursor((cursor + 1) % |ring|, |ring|);
      DivisionUnique((cursor + 1) % |ring|, 0, (cursor + 1) % |ring|, |ring|);
    }
  }

  /** Over one full turn a cursor picks every element of a ring exactly once. */
  lemma RotationVisitsOnce(ring: seq<string>, cursor: nat, count: nat, symbol: string) returns (k: nat)
    requires ring != [] && Distinct(ring) && symbol in ring && |ring| <= count
    ensures k < |ring| && Rotation(ring, cursor, count)[k] == symbol
    ensures forall j :: 0 <= j < |ring| && Rotation(ring, cursor, count)[j] == symbol ==> j == k
  {
    var m, c := |ring|, cursor % |ring|;
    NextCursor(cursor, m);
    var i :| 0 <= i < m && ring[i] == symbol;
    k := if i >= c then i - c else i + m - c;
    RotationAt(ring, cursor, count, k);
    forall j | 0 <= j < m && Rotation(ring, cursor, count)[j] == symbol ensures j == k {
      RotationAt(ring, cursor, count, j);
    }
  }

  lemma {:induction false} BackgroundExact(symbols: seq<string>, focus: string)
    requires Distinct(symbols)
    ensures Distinct(Background(symbols, focus))
    ensures forall y :: y in Background(symbols, focus) <==> y in symbols && y != focus
    ensures |Background(symbols, focus)| == |symbols| - if focus in symbols then 1 else 0
  {
    if symbols != [] {
      var rest := symbols[1..];
      BackgroundExact(rest, focus);
      assert symbols == [symbols[0]] + rest;
      assert symbols[0] !in rest;
    }
  }

  /** The ring of the other symbols is the list with the focus taken out, in its own order. */
  lemma {:induction false} BackgroundOrder(symbols: seq<string>, focus: string, at: nat)
    requires Distinct(symbols) && at <= |symbols|
    requires if at < |symbols| then symbols[at] == focus else focus !in symbols
    ensures Background(symbols, focus) == if at < |symbols| then symbols[..at] + symbols[at + 1..] else symbols
  {
    if symbols != [] {
      var rest := symbols[1..];
      assert symbols == [symbols[0]] + rest;
      if at == 0 {
        assert symbols[0] !in rest;
        BackgroundOrder(rest, focus, |rest|);
      } else {
        BackgroundOrder(rest, focus, at - 1);
        if at < |symbols| { assert rest[..at - 1] + rest[at..] == (symbols[..at] + symbols[at + 1..])[1..]; }
      }
    }
  }

  // ----- delays -----

  datatype Config = Config(poll: real, maximum: real, initial: real)

  predicate ValidConfig(c: Config) {
    3.0 <= c.poll <= c.maximum && 0.0 < c.initial
  }

  function Pow2(n: nat): (p: nat)
    ensures p >= 1
  {
    if n == 0 then 1 else 2 * Pow2(n - 1)
  }

  function Min(a: real, b: real): real { if a <= b then a else b }

  function Max(a: real, b: real): real { if a <= b then b else a }

  function Exponent(failures: nat, cap: nat): nat {
    var e := if failures == 0 then 0 else failures - 1;
    if e <= cap then e else cap
  }

  function Backoff(c: Config, failures: nat): real {
    Min(c.maximum, c.initial * (Pow2(Exponent(failures, 30)) as real))
  }

  function Delay(c: Config, backoff: real, failed: bool, failures: nat, elapsed: real): real {
    var normal := Max(0.0, c.poll - elapsed);
    if backoff > 0.0 then Min(c.maximum, normal + backoff)
    else if failed then Min(c.maximum, c.poll * (Pow2(Exponent(failures, 6)) as real))
    else normal
  }

  lemma BackoffPositive(c: Config, failures: nat)
    requires ValidConfig(c)
    ensures 0.0 < Backoff(c, failures) <= c.maximum
  {
    var p := Pow2(Exponent(failures, 30)) as real;
    assert c.initial * p >= c.initial * 1.0;
  }

  /** Each further rate-limited cycle doubles the backoff until it is capped; after thirty
      doublings it stays where it is. */
  lemma BackoffDoubles(c: Config, failures: nat)
    requires ValidConfig(c) && failures >= 1
    ensures Backoff(c, 1) == Min(c.maximum, c.initial)
    ensures failures <= 30 ==> Backoff(c, failures + 1) == Min(c.maximum, 2.0 * Backoff(c, failures))
    ensures failures > 30 ==> Backoff(c, failures + 1) == Backoff(c, failures)
    ensures Backoff(c, failures) <= Backoff(c, failures + 1)
  {
    hide Pow2;
    BackoffPositive(c, failures);
    Doubling(failures - 1);
    if failures <= 30 {
      CappedDouble(c, Pow2(failures - 1), Pow2(failures));
    }
  }

  lemma Doubling(n: nat)
    ensures Pow2(0) == 1 && Pow2(n + 1) == 2 * Pow2(n)
  {
  }

  lemma CappedDouble(c: Config, p: nat, twice: nat)
    requires ValidConfig(c) && p >= 1 && twice == 2 * p
    ensures Min(c.maximum, c.initial * (twice as real)) == Min(c.maximum, 2.0 * Min(c.maximum, c.initial * (p as real)))
  {
    var x := c.initial * (p as real);
    assert c.initial * (twice as real) == 2.0 * x;
  }

  /** Without a provider backoff, a failed cycle waits one poll interval, and each further failure
      doubles that until it is capped; after six doublings it stays where it is. */
  lemma FailureDoubles(c: Config, failures: nat, elapsed: real)
    requires ValidConfig(c) && failures >= 1
    ensures Delay(c, 0.0, true, 1, elapsed) == c.poll
    ensures var d, next := Delay(c, 0.0, true, failures, elapsed), Delay(c, 0.0, true, failures + 1, elapsed);
      && d <= next <= c.maximum
      && (failures <= 6 ==> next == if 2.0 * d < c.maximum then 2.0 * d else c.maximum)
      && (failures > 6 ==> next == d)
  {
    hide Delay, FailureWait;
    FailureDelay(c, 1, elapsed);
    FailureDelay(c, failures, elapsed);
    FailureDelay(c, failures + 1, elapsed);
    WaitDoubles(c, Exponent(failures, 6));
  }

  /** The wait after this many doublings. */
  ghost function FailureWait(c: Config, doublings: nat): real {
    Min(c.maximum, c.poll * (Pow2(doublings) as real))
  }

  lemma FailureDelay(c: Config, failures: nat, elapsed: real)
    ensures Delay(c, 0.0, true, failures, elapsed) == FailureWait(c, Exponent(failures, 6))
  {
    hide Pow2, Exponent;
  }

  lemma WaitDoubles(c: Config, n: nat)
    requires ValidConfig(c)
    ensures FailureWait(c, 0) == c.poll && 0.0 < FailureWait(c, n) <= c.maximum
    ensures var d := FailureWait(c, n); FailureWait(c, n + 1) == if 2.0 * d < c.maximum then 2.0 * d else c.maximum
  {
    hide Pow2;
    Doubling(n);
    CappedPoll(c, Pow2(n), Pow2(n + 1));
  }

  lemma CappedPoll(c: Config, p: nat, twice: nat)
    requires ValidConfig(c) && p >= 1 && twice == 2 * p
    ensures Min(c.maximum, c.poll * (twice as real)) == Min(c.maximum, 2.0 * Min(c.maximum, c.poll * (p as real)))
    ensures c.poll * (p as real) > 0.0
  {
    var x := c.poll * (p as real);
    assert c.poll * (twice as real) == 2.0 * x;
    assert x >= c.poll * 1.0;
  }

  /** A cooldown is at least the provider backoff, and never over the maximum. */
  lemma CooldownCoversBackoff(c: Config, failures: nat, failed: bool, total: nat, elapsed: real)
    requires ValidConfig(c)
    ensures Backoff(c, failures) <= Delay(c, Backoff(c, failures), failed, total, elapsed) <= c.maximum
  {
    BackoffPositive(c, failures);
  }

  // ----- the interleaving -----

  /** Where the worker thread stands. A cooldown is the loop Cool → Measured → CoolWait, with
      Woken and CoolClear after an early wake. */
  datatype Phase =
    | Idle | LoopTop | Clearing | Choosing
    | Running(since: real)
    | Deciding(delay: real, preserve: bool)
    | Sleeping(until: real)
    | Cool(deadline: real)
    | Measured(deadline: real, remaining: real)
    | CoolWait(deadline: real, until: real)
    | Woken(deadline: real)
    | CoolClear(deadline: real)

  /** How a cycle ended: recorded with its rate-limit verdict, or raised. */
  datatype Outcome = Recorded(rateLimited: bool, succeeded: bool, healthy: bool) | Raised(rateLimited: bool)

  /** What happened, oldest first. `Limited` is logged when a rate-limited cycle ends, `Cooling`
      when the worker begins a wait that it must not cut short. */
  datatype Entry =
    | Asked(symbol: string) | Chosen(at: real, batch: seq<string>) | Limited(at: real, failures: nat) | Cooling(deadline: real)
    | Started

  datatype Action = Ask(symbol: string) | Signal | Stop | StopWake | Start | Worker(outcome: Outcome) | Pass(time: real)

  /** `signalling` counts requesters between their lock section and `event.set()`. */
  datatype State = State(
    schedule: Schedule, event: bool, stop: bool, signalling: nat, phase: Phase, now: real,
    limitFailures: nat, backoff: real, failures: nat, log: seq<Entry>)

  function Init(): State {
    State(Schedule(None, false, 0), false, false, 0, Idle, 0.0, 0, 0.0, 0, [])
  }

  function EndCycle(c: Config, s: State, since: real, outcome: Outcome): State {
    var failed := outcome.Raised?;
    var failures := if outcome.Recorded? && outcome.healthy then 0 else s.failures + 1;
    var limitFailures := if outcome.rateLimited then s.limitFailures + 1 else if outcome.Recorded? && outcome.succeeded then 0 else s.limitFailures;
    var backoff := if outcome.rateLimited then Backoff(c, limitFailures) else if outcome.Recorded? && outcome.succeeded then 0.0 else s.backoff;
    s.(failures := failures, limitFailures := limitFailures, backoff := backoff,
       phase := Deciding(Delay(c, backoff, failed, failures, s.now - since), backoff > 0.0),
       log := if outcome.rateLimited then s.log + [Limited(s.now, limitFailures)] else s.log)
  }

  function StepWorker(c: Config, symbols: seq<string>, s: State, outcome: Outcome): State
    requires symbols != []
  {
    match s.phase
    case Idle => s
    case LoopTop => s.(phase := if s.stop then Idle else Clearing)
    case Clearing => s.(event := false, phase := Choosing)
    case Choosing =>
      var (batch, after) := NextBatch(symbols, s.schedule);
      s.(schedule := after, phase := Running(s.now), log := s.log + [Chosen(s.now, batch)])
    case Running(since) => EndCycle(c, s, since, outcome)
    case Deciding(delay, preserve) =>
      if preserve then s.(phase := Cool(s.now + delay), log := s.log + [Cooling(s.now + delay)])
      else s.(phase := Sleeping(s.now + delay))
    case Sleeping(until) => if s.event || s.now >= until then s.(phase := LoopTop) else s
    case Cool(deadline) => s.(phase := if s.stop then LoopTop else Measured(deadline, Max(0.0, deadline - s.now)))
    case Measured(deadline, remaining) => s.(phase := if remaining == 0.0 then LoopTop else CoolWait(deadline, s.now + remaining))
    case CoolWait(deadline, until) =>
      if s.event then s.(phase := Woken(deadline)) else if s.now >= until then s.(phase := LoopTop) else s
    case Woken(deadline) => s.(phase := if s.stop then LoopTop else CoolClear(deadline))
    case CoolClear(deadline) => s.(event := false, phase := Cool(deadline))
  }

  function Apply(c: Config, symbols: seq<string>, s: State, a: Action): State
    requires symbols != []
  {
    match a
    case Ask(symbol) =>
      if Changes(symbols, s.schedule, symbol)
      then s.(schedule := Focused(symbols, s.schedule, symbol), signalling := s.signalling + 1, log := s.log + [Asked(symbol)])
      else s
    case Signal => if s.signalling > 0 then s.(event := true, signalling := s.signalling - 1) else s
    case Stop => s.(stop := true)
    case StopWake => if s.stop then s.(event := true) else s
    case Start => if s.phase.Idle? then s.(stop := false, event := false, phase := LoopTop, log := s.log + [Started]) else s
    case Worker(outcome) => StepWorker(c, symbols, s, outcome)
    case Pass(time) => if time > 0.0 then s.(now := s.now + time) else s
  }

  function RunFrom(c: Config, symbols: seq<string>, s: State, actions: seq<Action>): State
    requires symbols != []
    decreases |actions|
  {
    if actions == [] then s else RunFrom(c, symbols, Apply(c, symbols, s, actions[0]), actions[1..])
  }

  // ----- invariants -----

  /** The last focus request not yet followed by a batch. */
  function Unserved(log: seq<Entry>): Option<string> {
    if log == [] then None
    else match log[|log| - 1]
      case Asked(symbol) => Some(symbol)
      case Chosen(_, _) => None
      case _ => Unserved(log[..|log| - 1])
  }

  /** When every cooldown since the last start is over. */
  function Due(c: Config, log: seq<Entry>): real {
    if log == [] then 0.0
    else match log[|log| - 1]
      case Started => 0.0
      case Limited(at, failures) => Max(Due(c, log[..|log| - 1]), at + Backoff(c, failures))
      case Cooling(deadline) => Max(Due(c, log[..|log| - 1]), deadline)
      case _ => Due(c, log[..|log| - 1])
  }

  ghost predicate FocusOk(symbols: seq<string>, s: State) {
    && (s.schedule.focused.Some? ==> s.schedule.focused.value in symbols)
    && (s.schedule.pending ==> s.schedule.focused.Some?)
    && Unserved(s.log) == if s.schedule.pending then s.schedule.focused else None
  }

  /** From the moment a batch is chosen until the sleep after it ends, a pending focus has set
      the wake event or is about to. */
  ghost predicate WakeOk(s: State) {
    (s.phase.Running? || s.phase.Deciding? || s.phase.Sleeping?) && s.schedule.pending ==> s.event || s.signalling > 0
  }

  ghost predicate CooldownOk(c: Config, s: State) {
    var due := Due(c, s.log);
    && 0.0 <= s.now
    && (s.backoff > 0.0 ==> s.limitFailures > 0)
    && match s.phase
       case Idle => true
       case LoopTop => s.stop || s.now >= due
       case Deciding(delay, preserve) => s.now >= due || (preserve && s.now + delay >= due)
       case Cool(deadline) => s.now >= due || deadline >= due
       case Measured(deadline, remaining) => s.now >= due || (deadline >= due && remaining >= 0.0 && s.now + remaining >= deadline)
       case CoolWait(deadline, until) => s.now >= due || (deadline >= due && until >= deadline)
       case Woken(deadline) => s.now >= due || deadline >= due
       case CoolClear(deadline) => s.now >= due || deadline >= due
       case _ => s.now >= due
  }

  ghost predicate Served(c: Config, log: seq<Entry>, j: nat) {
    j < |log| && log[j].Chosen? ==>
      log[j].at >= Due(c, log[..j]) && (Unserved(log[..j]).Some? ==> log[j].batch == [Unserved(log[..j]).value])
  }

  ghost predicate LogOk(c: Config, log: seq<Entry>) {
    forall j: nat :: Served(c, log, j)
  }

  ghost predicate Inv(c: Config, symbols: seq<string>, s: State) {
    FocusOk(symbols, s) && WakeOk(s) && CooldownOk(c, s) && LogOk(c, s.log)
  }

  lemma LogGrows(c: Config, log: seq<Entry>, e: Entry)
    requires LogOk(c, log)
    requires e.Chosen? ==> e.at >= Due(c, log) && (Unserved(log).Some? ==> e.batch == [Unserved(log).value])
    ensures LogOk(c, log + [e])
  {
    hide Due, Unserved;
    forall j: nat ensures Served(c, log + [e], j) {
      if j < |log| {
        assert Served(c, log, j);
        assert (log + [e])[..j] == log[..j];
      } else if j == |log| {
        assert (log + [e])[..j] == log;
      }
    }
  }

  lemma LastEntry(c: Config, log: seq<Entry>, e: Entry)
    ensures e.Started? ==> Due(c, log + [e]) == 0.0
    ensures e.Limited? ==> Due(c, log + [e]) == Max(Due(c, log), e.at + Backoff(c, e.failures))
    ensures e.Cooling? ==> Due(c, log + [e]) == Max(Due(c, log), e.deadline)
    ensures e.Asked? || e.Chosen? ==> Due(c, log + [e]) == Due(c, log)
    ensures e.Asked? ==> Unserved(log + [e]) == Some(e.symbol)
    ensures e.Chosen? ==> Unserved(log + [e]) == None
    ensures e.Limited? || e.Cooling? || e.Started? ==> Unserved(log + [e]) == Unserved(log)
  {
    hide Backoff;
    assert (log + [e])[..|log + [e]| - 1] == log;
  }

  /** A batch chosen while a focus is pending holds that symbol alone, and ends the wait. */
  lemma PendingAlone(symbols: seq<string>, s: Schedule)
    requires symbols != [] && (s.focused.Some? ==> s.focused.value in symbols) && (s.pending ==> s.focused.Some?)
    ensures var (batch, after) := NextBatch(symbols, s);
      && after.focused == s.focused && !after.pending
      && (s.pending ==> batch == [s.focused.value])
  {
    if s.pending && |symbols| == 1 { assert symbols == [symbols[0]]; }
  }

  lemma ChooseInv(c: Config, symbols: seq<string>, s: State, outcome: Outcome)
    requires symbols != [] && Inv(c, symbols, s) && s.phase.Choosing?
    ensures Inv(c, symbols, StepWorker(c, symbols, s, outcome))
  {
    hide NextBatch, Due, Unserved, LogOk;
    var (batch, after) := NextBatch(symbols, s.schedule);
    PendingAlone(symbols, s.schedule);
    LogGrows(c, s.log, Chosen(s.now, batch));
    LastEntry(c, s.log, Chosen(s.now, batch));
  }

  lemma EndInv(c: Config, symbols: seq<string>, s: State, outcome: Outcome)
    requires ValidConfig(c) && symbols != [] && Inv(c, symbols, s) && s.phase.Running?
    ensures Inv(c, symbols, StepWorker(c, symbols, s, outcome))
  {
    hide Due, Unserved, LogOk, Backoff, Delay;
    if outcome.rateLimited {
      var e := Limited(s.now, s.limitFailures + 1);
      LogGrows(c, s.log, e);
      LastEntry(c, s.log, e);
      BackoffPositive(c, s.limitFailures + 1);
      CooldownCoversBackoff(c, s.limitFailures + 1, outcome.Raised?, if outcome.Recorded? && outcome.healthy then 0 else s.failures + 1, s.now - s.phase.since);
    }
  }

  lemma QuietStepInv(c: Config, symbols: seq<string>, s: State, outcome: Outcome)
    requires symbols != [] && Inv(c, symbols, s) && !s.phase.Choosing? && !s.phase.Running?
    ensures Inv(c, symbols, StepWorker(c, symbols, s, outcome))
  {
    hide Due, Unserved, LogOk;
    if s.phase.Deciding? && s.phase.preserve {
      var e := Cooling(s.now + s.phase.delay);
      LogGrows(c, s.log, e);
      LastEntry(c, s.log, e);
    }
  }

  lemma CallerInv(c: Config, symbols: seq<string>, s: State, a: Action)
    requires symbols != [] && Inv(c, symbols, s) && !a.Worker?
    ensures Inv(c, symbols, Apply(c, symbols, s, a))
  {
    hide Due, Unserved, LogOk;
    if a.Ask? {
      LogGrows(c, s.log, Asked(a.symbol));
      LastEntry(c, s.log, Asked(a.symbol));
    } else if a.Start? {
      LogGrows(c, s.log, Started);
      LastEntry(c, s.log, Started);
    }
  }

  lemma ApplyInv(c: Config, symbols: seq<string>, s: State, a: Action)
    requires ValidConfig(c) && symbols != [] && Inv(c, symbols, s)
    ensures Inv(c, symbols, Apply(c, symbols, s, a))
  {
    hide Inv, StepWorker;
    if !a.Worker? {
      CallerInv(c, symbols, s, a);
    } else if s.phase.Choosing? {
      ChooseInv(c, symbols, s, a.outcome);
    } else if s.phase.Running? {
      EndInv(c, symbols, s, a.outcome);
    } else {
      QuietStepInv(c, symbols, s, a.outcome);
    }
  }

  lemma {:induction false} RunInv(c: Config, symbols: seq<string>, s: State, actions: seq<Action>)
    requires ValidConfig(c) && symbols != [] && Inv(c, symbols, s)
    ensures Inv(c, symbols, RunFrom(c, symbols, s, actions))
    decreases |actions|
  {
    hide Inv, Apply;
    if actions != [] {
      ApplyInv(c, symbols, s, actions[0]);
      RunInv(c, symbols, Apply(c, symbols, s, actions[0]), actions[1..]);
    }
  }

  lemma ReachableInv(c: Config, symbols: seq<string>, actions: seq<Action>)
    requires ValidConfig(c) && symbols != []
    ensures Inv(c, symbols, RunFrom(c, symbols, Init(), actions))
  {
    RunInv(c, symbols, Init(), actions);
  }

  // ----- what every interleaving promises -----

  /** No lost wake: when the worker sleeps normally with a focus pending, the wake event is set
      as soon as no requester is still on its way to set it, so its next step leaves the sleep. */
  lemma NoLostWake(c: Config, symbols: seq<string>, actions: seq<Action>, s: State, outcome: Outcome)
    requires ValidConfig(c) && symbols != [] && s == RunFrom(c, symbols, Init(), actions)
    requires s.phase.Sleeping? && s.schedule.pending && s.signalling == 0
    ensures s.event && StepWorker(c, symbols, s, outcome).phase == LoopTop
  {
    hide RunFrom, Due, Unserved, LogOk;
    ReachableInv(c, symbols, actions);
  }

  ghost predicate NoneBetween(log: seq<Entry>, i: nat, j: nat, isSuch: Entry -> bool) {
    forall k :: i < k < j && k < |log| ==> !isSuch(log[k])
  }

  predicate IsMark(e: Entry) { e.Asked? || e.Chosen? }

  predicate IsStart(e: Entry) { e.Started? }

  lemma {:induction false} UnservedSince(log: seq<Entry>, i: nat)
    requires i < |log| && log[i].Asked? && NoneBetween(log, i, |log|, IsMark)
    ensures Unserved(log) == Some(log[i].symbol)
  {
    if i < |log| - 1 {
      var shorter := log[..|log| - 1];
      assert IsMark(log[|log| - 1]) == false;
      assert forall k :: 0 <= k < |shorter| ==> shorter[k] == log[k];
      UnservedSince(shorter, i);
    }
  }

  lemma {:induction false} DueSince(c: Config, log: seq<Entry>, i: nat)
    requires i < |log| && NoneBetween(log, i, |log|, IsStart)
    ensures log[i].Limited? ==> Due(c, log) >= log[i].at + Backoff(c, log[i].failures)
    ensures log[i].Cooling? ==> Due(c, log) >= log[i].deadline
  {
    hide Backoff;
    if i < |log| - 1 {
      var shorter := log[..|log| - 1];
      assert IsStart(log[|log| - 1]) == false;
      assert forall k :: 0 <= k < |shorter| ==> shorter[k] == log[k];
      DueSince(c, shorter, i);
    }
  }

  /** In every interleaving, the first batch after a focus change holds the newly focused symbol
      alone, whatever the worker was doing when the request came. */
  lemma NewFocusAlone(c: Config, symbols: seq<string>, actions: seq<Action>, log: seq<Entry>, i: nat, j: nat)
    requires ValidConfig(c) && symbols != [] && log == RunFrom(c, symbols, Init(), actions).log
    requires i < j < |log| && log[i].Asked? && log[j].Chosen? && NoneBetween(log, i, j, IsMark)
    ensures log[j].batch == [log[i].symbol]
  {
    hide RunFrom, Due, Unserved, FocusOk, WakeOk, CooldownOk;
    ReachableInv(c, symbols, actions);
    assert forall k :: 0 <= k < j ==> log[..j][k] == log[k];
    UnservedSince(log[..j], i);
    assert Served(c, log, j);
  }

  /** In every interleaving, no provider cycle begins before the deadline of any earlier cooldown,
      nor before the backoff of any earlier rate-limited cycle is over, however often the focus is
      changed meanwhile; only a fresh start of a stopped worker forgets it. */
  lemma CooldownNeverCutShort(c: Config, symbols: seq<string>, actions: seq<Action>, log: seq<Entry>, i: nat, j: nat)
    requires ValidConfig(c) && symbols != [] && log == RunFrom(c, symbols, Init(), actions).log
    requires i < j < |log| && log[j].Chosen? && NoneBetween(log, i, j, IsStart)
    ensures log[i].Cooling? ==> log[j].at >= log[i].deadline
    ensures log[i].Limited? ==> log[j].at >= log[i].at + Backoff(c, log[i].failures)
  {
    hide RunFrom, Due, Unserved, FocusOk, WakeOk, CooldownOk, Backoff;
    ReachableInv(c, symbols, actions);
    assert forall k :: 0 <= k < j ==> log[..j][k] == log[k];
    DueSince(c, log[..j], i);
    assert Served(c, log, j);
  }

  // ----- starting and stopping -----

  /** A started worker forgets an earlier stop and chooses its first batch at its third step; one that
      is told to stop and woken is idle two steps after it leaves any wait. */
  lemma StartAndStop(c: Config, symbols: seq<string>, s: State, outcome: Outcome)
    requires symbols != []
    ensures var step := (t: State) => StepWorker(c, symbols, t, outcome);
      s.phase.Idle? ==>
        && !Apply(c, symbols, s, Start).event && !Apply(c, symbols, s, Start).stop
        && var started := step(step(Apply(c, symbols, s, Start)));
        && started.phase.Choosing? && !started.stop && !started.event && started.schedule == s.schedule && started.now == s.now
        && step(started).phase == Running(s.now)
    ensures var step := (t: State) => StepWorker(c, symbols, t, outcome);
      var stopped := Apply(c, symbols, Apply(c, symbols, s, Stop), StopWake);
      && (s.phase.LoopTop? ==> step(stopped).phase.Idle?)
      && (s.phase.Sleeping? || s.phase.Cool? || s.phase.Woken? ==> step(step(stopped)).phase.Idle?)
      && (s.phase.CoolWait? ==> step(step(step(stopped))).phase.Idle?)
  {
    hide NextBatch, Backoff, Delay;
  }

  // ----- pace -----

  /** When the next cycle would begin at the normal cadence: one poll interval after this one began,
      or now if that is over. */
  ghost function Cadence(c: Config, since: real, now: real): real {
    if since + c.poll > now then since + c.poll else now
  }

  /** The cadence put off by the provider backoff, but never further than the maximum. */
  ghost function PutOff(c: Config, since: real, now: real, backoff: real): real {
    if Cadence(c, since, now) + backoff > now + c.maximum then now + c.maximum else Cadence(c, since, now) + backoff
  }

  /** What the end of a cycle leads to. A rate limit lengthens the backoff, a success ends it, and
      nothing else changes it; while there is a backoff the worker cools down until the put-off
      cadence; otherwise it sleeps until the cadence, or longer after a cycle that raised. */
  lemma CyclePace(c: Config, symbols: seq<string>, s: State, outcome: Outcome)
    requires ValidConfig(c) && symbols != [] && s.phase.Running? && s.phase.since <= s.now
    requires s.backoff >= 0.0
    ensures var since, s' := s.phase.since, StepWorker(c, symbols, StepWorker(c, symbols, s, outcome), outcome);
      && s'.now == s.now && s'.schedule == s.schedule
      && s'.failures == (if outcome.Recorded? && outcome.healthy then 0 else s.failures + 1)
      && (outcome.rateLimited ==> s'.limitFailures == s.limitFailures + 1 && s'.backoff == Backoff(c, s'.limitFailures) > 0.0)
      && (!outcome.rateLimited && outcome.Recorded? && outcome.succeeded ==> s'.limitFailures == 0 && s'.backoff == 0.0)
      && (!outcome.rateLimited && !(outcome.Recorded? && outcome.succeeded) ==> s'.limitFailures == s.limitFailures && s'.backoff == s.backoff)
      && (s'.backoff > 0.0 ==> s'.phase == Cool(PutOff(c, since, s.now, s'.backoff)))
      && (s'.backoff == 0.0 && outcome.Recorded? ==> s'.phase == Sleeping(Cadence(c, since, s.now)))
      && (s'.backoff == 0.0 && outcome.Raised? ==> s'.phase == Sleeping(s.now + Delay(c, 0.0, true, s'.failures, s.now - since)))
  {
    hide Backoff, Delay;
    BackoffPositive(c, s.limitFailures + 1);
    var s1 := EndCycle(c, s, s.phase.since, outcome);
    PaceOf(c, s.phase.since, s.now, s1.backoff, outcome.Raised?, s1.failures);
  }

  lemma PaceOf(c: Config, since: real, now: real, backoff: real, failed: bool, failures: nat)
    requires ValidConfig(c) && since <= now && backoff >= 0.0
    ensures var d := Delay(c, backoff, failed, failures, now - since);
      && (backoff > 0.0 ==> now + d == PutOff(c, since, now, backoff))
      && (backoff == 0.0 && !failed ==> now + d == Cadence(c, since, now))
  {
    hide Pow2;
  }

  // ----- fairness -----

  function Batches(log: seq<Entry>): seq<seq<string>> {
    if log == [] then []
    else Batches(log[..|log| - 1]) + if log[|log| - 1].Chosen? then [log[|log| - 1].batch] else []
  }

  lemma BatchesStep(log: seq<Entry>, e: Entry)
    ensures Batches(log + [e]) == Batches(log) + if e.Chosen? then [e.batch] else []
  {
    assert (log + [e])[..|log + [e]| - 1] == log;
  }

  /** No action asks for another focus. */
  ghost predicate Quiet(symbols: seq<string>, focus: Option<string>, actions: seq<Action>) {
    forall k :: 0 <= k < |actions| && actions[k].Ask? ==> actions[k].symbol !in symbols || Some(actions[k].symbol) == focus
  }

  /** The ring the cursor walks, and what a batch adds in front of the ring's element. */
  function Ring(symbols: seq<string>, focus: Option<string>): seq<string> {
    if focus.None? then symbols else Background(symbols, focus.value)
  }

  function Lead(focus: Option<string>): seq<string> {
    if focus.None? then [] else [focus.value]
  }

  function Paired(lead: seq<string>, picks: seq<string>): (r: seq<seq<string>>)
    ensures |r| == |picks| && forall k :: 0 <= k < |r| ==> r[k] == lead + [picks[k]]
  {
    if picks == [] then [] else [lead + [picks[0]]] + Paired(lead, picks[1..])
  }

  /** What the next batch is when no focus change is pending. */
  function PickOf(symbols: seq<string>, s: Schedule): seq<string>
    requires Ring(symbols, s.focused) != []
  {
    var ring := Ring(symbols, s.focused);
    Lead(s.focused) + [ring[s.cursor % |ring|]]
  }

  lemma QuietApply(c: Config, symbols: seq<string>, s: State, a: Action) returns (chose: bool)
    requires |symbols| >= 2 && !s.schedule.pending && Quiet(symbols, s.schedule.focused, [a])
    requires Ring(symbols, s.schedule.focused) != []
    ensures var t := Apply(c, symbols, s, a);
      var ring := Ring(symbols, s.schedule.focused);
      && t.schedule.focused == s.schedule.focused && !t.schedule.pending
      && (!chose ==> t.schedule.cursor == s.schedule.cursor && Batches(t.log) == Batches(s.log))
      && (chose ==> t.schedule.cursor == (s.schedule.cursor + 1) % |ring|)
      && (chose ==> Batches(t.log) == Batches(s.log) + [PickOf(symbols, s.schedule)])
  {
    hide Batches, Delay, Backoff, Background;
    chose := a.Worker? && s.phase.Choosing?;
    assert a.Ask? ==> [a][0].symbol !in symbols || Some([a][0].symbol) == s.schedule.focused;
    var t := Apply(c, symbols, s, a);
    if |t.log| > |s.log| {
      BatchesStep(s.log, t.log[|s.log|]);
      assert t.log == s.log + [t.log[|s.log|]];
    }
    if chose { assert NextBatch(symbols, s.schedule).0 == PickOf(symbols, s.schedule); }
  }

  lemma {:induction false} QuietRun(c: Config, symbols: seq<string>, s: State, actions: seq<Action>) returns (count: nat)
    requires |symbols| >= 2 && !s.schedule.pending && Quiet(symbols, s.schedule.focused, actions)
    requires Ring(symbols, s.schedule.focused) != []
    ensures Batches(RunFrom(c, symbols, s, actions).log)
         == Batches(s.log) + Paired(Lead(s.schedule.focused), Rotation(Ring(symbols, s.schedule.focused), s.schedule.cursor, count))
    decreases |actions|
  {
    hide Batches, Apply, Ring, Lead, Rotation, Paired;
    var focus, cursor := s.schedule.focused, s.schedule.cursor;
    if actions == [] {
      count := 0;
      NothingPaired(Lead(focus), Ring(symbols, focus), cursor);
    } else {
      var t := Apply(c, symbols, s, actions[0]);
      var chose := QuietApply(c, symbols, s, actions[0]);
      count := QuietRun(c, symbols, t, actions[1..]);
      if chose {
        PairedStep(Lead(focus), Ring(symbols, focus), cursor, count);
        count := count + 1;
      }
    }
  }

  lemma NothingPaired(lead: seq<string>, ring: seq<string>, cursor: nat)
    requires ring != []
    ensures Paired(lead, Rotation(ring, cursor, 0)) == []
  {
  }

  lemma PairedStep(lead: seq<string>, ring: seq<string>, cursor: nat, count: nat)
    requires ring != []
    ensures Paired(lead, Rotation(ring, cursor, count + 1))
         == [lead + [ring[cursor % |ring|]]] + Paired(lead, Rotation(ring, (cursor + 1) % |ring|, count))
  {
    assert Rotation(ring, cursor, count + 1)[1..] == Rotation(ring, (cursor + 1) % |ring|, count);
  }

  ghost predicate ExactlyOnce(batches: seq<seq<string>>, width: nat, batch: seq<string>) {
    width <= |batches| && exists k :: 0 <= k < width && batches[k] == batch && forall j :: 0 <= j < width && batches[j] == batch ==> j == k
  }

  lemma OneTurn(symbols: seq<string>, focus: Option<string>, cursor: nat, count: nat, symbol: string)
    requires Ring(symbols, focus) != [] && Distinct(Ring(symbols, focus)) && symbol in Ring(symbols, focus)
    requires |Ring(symbols, focus)| <= count
    ensures ExactlyOnce(Paired(Lead(focus), Rotation(Ring(symbols, focus), cursor, count)), |Ring(symbols, focus)|, Lead(focus) + [symbol])
  {
    hide Ring, Lead;
    var ring, lead := Ring(symbols, focus), Lead(focus);
    var batches := Paired(lead, Rotation(ring, cursor, count));
    var k := RotationVisitsOnce(ring, cursor, count, symbol);
    assert batches[k] == lead + [symbol];
    forall j | 0 <= j < |ring| && batches[j] == lead + [symbol] ensures j == k {
      assert batches[j][|lead|] == Rotation(ring, cursor, count)[j];
    }
  }

  /** Fair rotation, from any reachable state on and in any interleaving, while the focus does not
      change and is not waiting for its exclusive batch: every batch leads with the focus, and the
      next n - 1 batches pair it with every other symbol exactly once. Without a focus, the next
      n batches are the n symbols, each exactly once. */
  lemma FairRotation(c: Config, symbols: seq<string>, before: seq<Action>, s: State, actions: seq<Action>) returns (later: seq<seq<string>>)
    requires ValidConfig(c) && |symbols| >= 2 && Distinct(symbols) && s == RunFrom(c, symbols, Init(), before)
    requires !s.schedule.pending && Quiet(symbols, s.schedule.focused, actions)
    ensures var focus := s.schedule.focused;
      var width := if focus.Some? then |symbols| - 1 else |symbols|;
      && Batches(RunFrom(c, symbols, s, actions).log) == Batches(s.log) + later
      && (forall k :: 0 <= k < |later| ==> |later[k]| == |Lead(focus)| + 1 && Lead(focus) <= later[k])
      && (|later| >= width ==> forall y :: y in symbols && Some(y) != focus ==> ExactlyOnce(later, width, Lead(focus) + [y]))
  {
    hide RunFrom, Batches, Background, Due, Unserved, LogOk, WakeOk, CooldownOk;
    ReachableInv(c, symbols, before);
    var focus := s.schedule.focused;
    var ring := Ring(symbols, focus);
    if focus.Some? { BackgroundExact(symbols, focus.value); }
    var count := QuietRun(c, symbols, s, actions);
    later := Paired(Lead(focus), Rotation(ring, s.schedule.cursor, count));
    forall y | |later| >= |ring| && y in symbols && Some(y) != focus ensures ExactlyOnce(later, |ring|, Lead(focus) + [y]) {
      OneTurn(symbols, focus, s.schedule.cursor, count, y);
    }
  }

  // ----- the service as an object -----

  /** The scheduling fields of the acquisition service. The invariant of every interleaving is what
      `Valid` says of the object between any two steps; the history is kept for the contracts. */
  class Service {
    const config: Config
    const symbols: seq<string>
    var focusedSymbol: Option<string>
    var focusRefreshPending: bool
    var backgroundCursor: nat
    var rescheduleEvent: bool
    var stopEvent: bool
    var limitFailures: nat
    var backoff: real
    var failures: nat
    var phase: Phase
    ghost var signalling: nat
    ghost var now: real
    ghost var log: seq<Entry>

    ghost function Value(): State
      reads this
    {
      State(Scheduled(), rescheduleEvent, stopEvent, signalling, phase, now, limitFailures, backoff, failures, log)
    }

    function Scheduled(): Schedule
      reads this
    {
      Schedule(focusedSymbol, focusRefreshPending, backgroundCursor)
    }

    ghost predicate Valid()
      reads this
    {
      ValidConfig(config) && symbols != [] && Inv(config, symbols, Value())
    }

    constructor (config: Config, configured: seq<string>)
      requires ValidConfig(config) && configured != []
      ensures Valid() && this.config == config && symbols == configured && Value() == Init()
    {
      this.config, symbols := config, configured;
      focusedSymbol, focusRefreshPending, backgroundCursor, rescheduleEvent, stopEvent := None, false, 0, false, false;
      limitFailures, backoff, failures, phase, signalling, now, log := 0, 0.0, 0, Idle, 0, 0.0, [];
    }

    /** An error for an unsupported symbol; otherwise whether the focus changed. The lock section,
        then the wake. */
    method RequestFocus(selected: string) returns (changed: Result<bool>)
      requires Valid()
      modifies this
      ensures Valid()
      ensures changed.Err? <==> selected !in symbols
      ensures changed.Ok? ==> changed.value == Changes(symbols, old(Scheduled()), selected)
      ensures Value() == if changed == Ok(true) then Apply(config, symbols, Apply(config, symbols, old(Value()), Ask(selected)), Signal) else old(Value())
      ensures changed == Ok(true) ==> rescheduleEvent && focusRefreshPending && focusedSymbol == Some(selected)
    {
      hide Inv;
      if selected !in symbols { return Err("focused symbol must belong to the configured supported universe"); }
      CallerInv(config, symbols, Value(), Ask(selected));
      CallerInv(config, symbols, Apply(config, symbols, Value(), Ask(selected)), Signal);
      var differs := focusedSymbol != Some(selected);
      focusedSymbol := Some(selected);
      if differs {
        focusRefreshPending := true;
        log := log + [Asked(selected)];
        rescheduleEvent := true;
      }
      return Ok(differs);
    }

    /** The next batch: a newly focused symbol alone; otherwise the focus, if any, and one of the
        rest in turn. */
    method WorkerCycleSymbols() returns (batch: seq<string>)
      requires symbols != []
      modifies this`focusRefreshPending, this`backgroundCursor
      ensures (batch, Scheduled()) == NextBatch(symbols, old(Scheduled()))
    {
      if |symbols| == 1 {
        focusRefreshPending := false;
        return symbols;
      }
      if focusedSymbol.Some? && focusRefreshPending {
        focusRefreshPending := false;
        return [focusedSymbol.value];
      }
      if focusedSymbol.None? {
        batch := [symbols[backgroundCursor % |symbols|]];
        backgroundCursor := (backgroundCursor + 1) % |symbols|;
        return;
      }
      var background := Background(symbols, focusedSymbol.value);
      if background == [] { return [focusedSymbol.value]; }
      batch := [focusedSymbol.value, background[backgroundCursor % |background|]];
      backgroundCursor := (backgroundCursor + 1) % |background|;
    }

    /** The worker's choice of a batch: what it starts now is what every promise below speaks of. */
    method BeginCycle(clock: real) returns (batch: seq<string>)
      requires Valid() && phase.Choosing? && clock == now
      modifies this
      ensures Valid() && Value() == Apply(config, symbols, old(Value()), Worker(Raised(false)))
      ensures log == old(log) + [Chosen(clock, batch)] && !focusRefreshPending
      ensures old(focusRefreshPending) ==> old(focusedSymbol).Some? && batch == [old(focusedSymbol).value]
      ensures clock >= Due(config, old(log))
    {
      hide Inv, NextBatch, Due;
      ChooseInv(config, symbols, Value(), Raised(false));
      ChoiceFacts(config, symbols, Value());
      batch := WorkerCycleSymbols();
      phase := Running(clock);
      log := log + [Chosen(clock, batch)];
    }

    /** The end of a cycle: failure counters, backoff, and how long to wait. */
    method FinishCycle(outcome: Outcome, clock: real)
      requires Valid() && phase.Running? && clock == now
      modifies this
      ensures Valid() && Value() == Apply(config, symbols, old(Value()), Worker(outcome))
      ensures outcome.rateLimited ==> phase.Deciding? && phase.preserve && backoff <= phase.delay <= config.maximum
      ensures outcome.rateLimited ==> limitFailures == old(limitFailures) + 1 && backoff == Backoff(config, limitFailures)
    {
      hide Inv, Backoff, Delay, EndCycle;
      EndInv(config, symbols, Value(), outcome);
      Settle(outcome, clock);
      if outcome.rateLimited { LimitedCycle(config, old(Value()), outcome); }
    }

    method Settle(outcome: Outcome, clock: real)
      requires phase.Running? && clock == now
      modifies this
      ensures Value() == EndCycle(config, old(Value()), old(phase).since, outcome)
    {
      hide Backoff, Delay;
      var elapsed := clock - phase.since;
      if outcome.Recorded? && outcome.healthy { failures := 0; } else { failures := failures + 1; }
      if outcome.rateLimited {
        limitFailures := limitFailures + 1;
        backoff := Backoff(config, limitFailures);
        log := log + [Limited(clock, limitFailures)];
      } else if outcome.Recorded? && outcome.succeeded {
        limitFailures, backoff := 0, 0.0;
      }
      phase := Deciding(Delay(config, backoff, outcome.Raised?, failures, elapsed), backoff > 0.0);
    }

    /** Every other step of the worker: the top of its loop, and both kinds of wait. A cooldown is
        left only at its deadline or for a stop. */
    method WaitStep(clock: real)
      requires Valid() && !phase.Choosing? && !phase.Running? && clock == now
      modifies this
      ensures Valid() && Value() == Apply(config, symbols, old(Value()), Worker(Raised(false)))
      ensures phase.LoopTop? ==> stopEvent || clock >= Due(config, log)
    {
      hide Inv, StepWorker, Due;
      QuietStepInv(config, symbols, Value(), Raised(false));
      StepKeepsTime(config, symbols, Value(), Raised(false));
      if InCooldown(phase) { CooldownStep(clock); } else { PlainStep(clock); }
      if phase.LoopTop? { DueAtTop(config, symbols, Value()); }
    }

    method PlainStep(clock: real)
      requires symbols != [] && !phase.Choosing? && !phase.Running? && !InCooldown(phase) && clock == now
      modifies this
      ensures Value() == StepWorker(config, symbols, old(Value()), Raised(false))
    {
      match phase {
        case Idle =>
        case LoopTop => phase := if stopEvent then Idle else Clearing;
        case Clearing => rescheduleEvent, phase := false, Choosing;
        case Deciding(delay, preserve) =>
          if preserve { log := log + [Cooling(clock + delay)]; }
          phase := if preserve then Cool(clock + delay) else Sleeping(clock + delay);
        case Sleeping(until) => if rescheduleEvent || clock >= until { phase := LoopTop; }
      }
    }

    /** The bounded wait of a cooldown: a wake is cleared and the rest is waited for again. */
    method CooldownStep(clock: real)
      requires symbols != [] && InCooldown(phase) && clock == now
      modifies this
      ensures Value() == StepWorker(config, symbols, old(Value()), Raised(false))
    {
      match phase {
        case Cool(deadline) => phase := if stopEvent then LoopTop else Measured(deadline, Max(0.0, deadline - clock));
        case Measured(deadline, remaining) => phase := if remaining == 0.0 then LoopTop else CoolWait(deadline, clock + remaining);
        case CoolWait(deadline, until) =>
          if rescheduleEvent { phase := Woken(deadline); } else if clock >= until { phase := LoopTop; }
        case Woken(deadline) => phase := if stopEvent then LoopTop else CoolClear(deadline);
        case CoolClear(deadline) => rescheduleEvent, phase := false, Cool(deadline);
      }
    }
  }

  predicate InCooldown(phase: Phase) {
    phase.Cool? || phase.Measured? || phase.CoolWait? || phase.Woken? || phase.CoolClear?
  }

  lemma StepKeepsTime(c: Config, symbols: seq<string>, s: State, outcome: Outcome)
    requires symbols != []
    ensures StepWorker(c, symbols, s, outcome).now == s.now
  {
    hide NextBatch, Backoff, Delay;
  }

  lemma LimitedCycle(c: Config, s: State, outcome: Outcome)
    requires ValidConfig(c) && s.phase.Running? && outcome.rateLimited
    ensures var s' := EndCycle(c, s, s.phase.since, outcome);
      && s'.limitFailures == s.limitFailures + 1 && s'.backoff == Backoff(c, s'.limitFailures)
      && s'.phase.Deciding? && s'.phase.preserve && s'.backoff <= s'.phase.delay <= c.maximum
  {
    hide Backoff, Delay;
    BackoffPositive(c, s.limitFailures + 1);
    CooldownCoversBackoff(c, s.limitFailures + 1, outcome.Raised?, if outcome.Recorded? && outcome.healthy then 0 else s.failures + 1, s.now - s.phase.since);
  }

  lemma DueAtTop(c: Config, symbols: seq<string>, s: State)
    requires Inv(c, symbols, s) && s.phase.LoopTop?
    ensures s.stop || s.now >= Due(c, s.log)
  {
    hide Due;
  }

  lemma ChoiceFacts(c: Config, symbols: seq<string>, s: State)
    requires symbols != [] && Inv(c, symbols, s) && s.phase.Choosing?
    ensures var (batch, after) := NextBatch(symbols, s.schedule);
      && !after.pending && after.focused == s.schedule.focused
      && (s.schedule.pending ==> s.schedule.focused.Some? && batch == [s.schedule.focused.value])
    ensures s.now >= Due(c, s.log)
  {
    hide Due, NextBatch, LogOk;
    PendingAlone(symbols, s.schedule);
  }
}
