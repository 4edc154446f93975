/** The Signal connector's live stream: who owns it, and when it reconnects. */
module SignalConnector {
  import opened Options

  type Account = string

  /** Milliseconds. */
  datatype Config = Config(base: nat, max: nat)

  /** A receive stream. `closed` is set by the connector; `socketOpen` falls when the socket ends. */
  datatype Stream = Stream(account: Account, socketOpen: bool, closed: bool)

  predicate Live(stream: Stream) {
    stream.socketOpen && !stream.closed
  }

  /** What trying to open a stream gives: a socket, a stream whose socket could not be made, or
      an error before there is a stream. */
  datatype Attach = Opens | SocketFails | Throws

  /** What is left of a call that waits; each resumes later, in any order. */
  datatype Task =
    | StartReads
    | StartSaves(account: Account)
    | PairSaves(account: Account)
    | Retries(account: Account)
    | TimerReads(account: Account)
    | TimerResets
    | LogoutFinishes

  datatype Entry = Scheduled(attempt: nat, ceiling: nat, delay: int) | Reset

  datatype State = State(
    client: Option<nat>,
    stopped: bool,
    reconnectTimer: Option<nat>,
    reconnectAttempts: nat,
    liveAccount: Option<Account>,
    /** All streams ever opened, all timers armed and not fired, all calls that wait. */
    streams: seq<Stream>,
    armed: map<nat, Account>,
    timers: nat,
    tasks: multiset<Task>,
    log: seq<Entry>)

  const FRESH := State(None, false, None, 0, None, [], map[], 0, multiset{}, [])

  function Min(a: int, b: int): int {
    if a < b then a else b
  }

  function Max(a: int, b: int): int {
    if a > b then a else b
  }

  function Pow2(n: nat): (r: nat)
    ensures r >= 1
  {
    if n == 0 then 1 else 2 * Pow2(n - 1)
  }

  /** JavaScript's Math.round. */
  function Round(x: real): int {
    (x + 0.5).Floor
  }

  function Ceiling(cfg: Config, attempt: nat): nat
    requires attempt > 0
  {
    Min(cfg.max, cfg.base * Pow2(Min(attempt - 1, 16)))
  }

  function Delay(ceiling: nat, random: real): int {
    Max(1, Round(ceiling as real * (0.5 + random)))
  }

  // ---- The pieces of code between two waits ----

  function Scheduling(s: State, cfg: Config, account: Account, random: real): State {
    if s.stopped || s.reconnectTimer.Some? then s else
    var attempt := s.reconnectAttempts + 1;
    var ceiling := Ceiling(cfg, attempt);
    s.(reconnectAttempts := attempt, reconnectTimer := Some(s.timers), armed := s.armed[s.timers := account],
       timers := s.timers + 1, log := s.log + [Scheduled(attempt, ceiling, Delay(ceiling, random))])
  }

  function Closing(s: State): State {
    if s.client.None? || s.client.value >= |s.streams| then s.(client := None) else
    s.(client := None, streams := s.streams[s.client.value := s.streams[s.client.value].(closed := true)])
  }

  function Disconnecting(s: State, cfg: Config, account: Account, random: real): State {
    Scheduling(Closing(s), cfg, account, random)
  }

  function Connecting(s: State, account: Account, attach: Attach): State {
    if s.client.Some? || attach.Throws? then s
    else s.(client := Some(|s.streams|), streams := s.streams + [Stream(account, attach.Opens?, false)])
  }

  predicate Connects(s: State, attach: Attach) {
    s.client.Some? || !attach.Throws?
  }

  function Waiting(s: State, task: Task): State {
    s.(tasks := s.tasks + multiset{task})
  }

  datatype Event =
    | StartCalled
    | Paired(account: Account)
    | LogoutCalled
    | SocketEnds(stream: nat, random: real)
    | TimerFires(timer: nat)
    /** A waiting call goes on; `session` is what it read, `attach` what opening a stream gives. */
    | Resumes(task: Task, session: Option<Account>, attach: Attach, random: real)
    /** A waiting call fails on the database and is over. */
    | Fails(task: Task)

  predicate Possible(s: State, e: Event) {
    match e
    case SocketEnds(i, random) => i < |s.streams| && s.streams[i].socketOpen && 0.0 <= random < 1.0
    case TimerFires(t) => t in s.armed
    case Resumes(task, _, _, random) => task in s.tasks && 0.0 <= random < 1.0
    case Fails(task) => task in s.tasks
    case _ => true
  }

  function Resume(s: State, cfg: Config, task: Task, session: Option<Account>, attach: Attach, random: real): State {
    match task
    case StartReads =>
      if session.None? then s else Waiting(s.(liveAccount := session), StartSaves(session.value))
    case StartSaves(account) =>
      if Connects(s, attach) then Connecting(s, account, attach) else Waiting(s, Retries(account))
    case PairSaves(account) =>
      if Connects(s, attach) then Connecting(s, account, attach) else Waiting(s, Retries(account))
    case Retries(account) => Scheduling(s, cfg, account, random)
    case TimerReads(account) =>
      if session.None? then s
      else if Connects(s, attach) then Waiting(Connecting(s, session.value, attach), TimerResets)
      else Waiting(s, Retries(account))
    case TimerResets => s.(reconnectAttempts := 0, log := s.log + [Reset])
    case LogoutFinishes => s.(liveAccount := None)
  }

  function Step(s: State, cfg: Config, e: Event): State
    requires Possible(s, e)
  {
    match e
    case StartCalled => Waiting(s.(stopped := false), StartReads)
    case Paired(account) => Waiting(s.(liveAccount := Some(account)), PairSaves(account))
    case LogoutCalled => Waiting(Closing(s.(stopped := true)), LogoutFinishes)
    case SocketEnds(i, random) =>
      var ended := s.(streams := s.streams[i := s.streams[i].(socketOpen := false)]);
      if s.streams[i].closed then ended else Disconnecting(ended, cfg, s.streams[i].account, random)
    case TimerFires(t) =>
      var fired := s.(reconnectTimer := None, armed := s.armed - {t});
      if s.stopped then fired else Waiting(fired, TimerReads(s.armed[t]))
    case Resumes(task, session, attach, random) =>
      Resume(s.(tasks := s.tasks - multiset{task}), cfg, task, session, attach, random)
    case Fails(task) => s.(tasks := s.tasks - multiset{task})
  }

  class Connector {
    const cfg: Config
    var client: Option<nat>
    var stopped: bool
    var reconnectTimer: Option<nat>
    var reconnectAttempts: nat
    var liveAccount: Option<Account>
    var streams: seq<Stream>
    var armed: map<nat, Account>
    var timers: nat
    var tasks: multiset<Task>
    var log: seq<Entry>

    constructor (cfg: Config)
      ensures this.cfg == cfg && Now() == FRESH
    {
      this.cfg := cfg;
      client, stopped, reconnectTimer, reconnectAttempts, liveAccount := None, false, None, 0, None;
      streams, armed, timers, tasks, log := [], map[], 0, multiset{}, [];
    }

    function Now(): State
      reads this
    {
      State(client, stopped, reconnectTimer, reconnectAttempts, liveAccount, streams, armed, timers, tasks, log)
    }

    method ScheduleReconnect(account: Account, random: real)
      modifies this
      ensures Now() == Scheduling(old(Now()), cfg, account, random)
    {
      if stopped || reconnectTimer.Some? { return; }
      reconnectAttempts := reconnectAttempts + 1;
      var ceiling := Ceiling(cfg, reconnectAttempts);
      log := log + [Scheduled(reconnectAttempts, ceiling, Delay(ceiling, random))];
      armed := armed[timers := account];
      reconnectTimer := Some(timers);
      timers := timers + 1;
    }

    method StopLive()
      modifies this
      ensures Now() == Closing(old(Now()))
    {
      if client.None? { return; }
      var own := client.value;
      client := None;
      if own < |streams| { streams := streams[own := streams[own].(closed := true)]; }
    }

    method HandleDisconnect(account: Account, random: real)
      modifies this
      ensures Now() == Disconnecting(old(Now()), cfg, account, random)
    {
      if client.Some? { StopLive(); }
      if stopped { return; }
      ScheduleReconnect(account, random);
    }

    method ConnectLive(account: Account, attach: Attach) returns (ok: bool)
      modifies this
      ensures ok == Connects(old(Now()), attach)
      ensures Now() == Connecting(old(Now()), account, attach)
    {
      if client.Some? { return true; }
      if attach.Throws? { return false; }
      streams := streams + [Stream(account, attach.Opens?, false)];
      client := Some(|streams| - 1);
      ok := true;
    }

    method ConnectOrRetry(account: Account, attach: Attach)
      modifies this
      ensures var s := old(Now());
        Now() == if Connects(s, attach) then Connecting(s, account, attach) else Waiting(s, Retries(account))
    {
      var ok := ConnectLive(account, attach);
      if !ok { tasks := tasks + multiset{Retries(account)}; }
    }

    /** A timer reconnects with the account its session names, and retries with its own. */
    method ReconnectOrRetry(account: Account, named: Account, attach: Attach)
      modifies this
      ensures var s := old(Now());
        Now() == if Connects(s, attach) then Waiting(Connecting(s, named, attach), TimerResets)
                 else Waiting(s, Retries(account))
    {
      var ok := ConnectLive(named, attach);
      if ok {
        tasks := tasks + multiset{TimerResets};
      } else {
        tasks := tasks + multiset{Retries(account)};
      }
    }

    method ResumeTask(task: Task, session: Option<Account>, attach: Attach, random: real)
      modifies this
      ensures Now() == Resume(old(Now()), cfg, task, session, attach, random)
    {
      hide Scheduling, Connecting, Connects;
      match task {
        case StartReads =>
          if session.Some? {
            liveAccount := session;
            tasks := tasks + multiset{StartSaves(session.value)};
          }
        case StartSaves(account) => ConnectOrRetry(account, attach);
        case PairSaves(account) => ConnectOrRetry(account, attach);
        case Retries(account) => ScheduleReconnect(account, random);
        case TimerReads(account) =>
          if session.Some? { ReconnectOrRetry(account, session.value, attach); }
        case TimerResets =>
          reconnectAttempts := 0;
          log := log + [Reset];
        case LogoutFinishes => liveAccount := None;
      }
    }

    method EndSocket(i: nat, random: real)
      requires Possible(Now(), SocketEnds(i, random))
      modifies this
      ensures Now() == Step(old(Now()), cfg, SocketEnds(i, random))
    {
      hide Scheduling, Closing;
      streams := streams[i := streams[i].(socketOpen := false)];
      if !streams[i].closed { HandleDisconnect(streams[i].account, random); }
    }

    method FireTimer(t: nat)
      requires t in armed
      modifies this
      ensures Now() == Step(old(Now()), cfg, TimerFires(t))
    {
      var account := armed[t];
      armed := armed - {t};
      reconnectTimer := None;
      if !stopped { tasks := tasks + multiset{TimerReads(account)}; }
    }

    method Happen(e: Event)
      requires Possible(Now(), e)
      modifies this
      ensures Now() == Step(old(Now()), cfg, e)
    {
      hide Scheduling, Closing, Connecting, Resume, Disconnecting;
      match e {
        case StartCalled =>
          stopped := false;
          tasks := tasks + multiset{StartReads};
        case Paired(account) =>
          liveAccount := Some(account);
          tasks := tasks + multiset{PairSaves(account)};
        case LogoutCalled =>
          stopped := true;
          StopLive();
          tasks := tasks + multiset{LogoutFinishes};
        case SocketEnds(i, random) =>
          EndSocket(i, random);
        case TimerFires(t) =>
          FireTimer(t);
        case Resumes(task, session, attach, random) =>
          tasks := tasks - multiset{task};
          ResumeTask(task, session, attach, random);
        case Fails(task) => tasks := tasks - multiset{task};
      }
    }
  }

  // ---- What every step keeps ----

  /** A live stream is the one held; the one held was not closed by the connector; the only timer
      armed is the one remembered. */
  predicate Inv(s: State) {
    && (forall i :: 0 <= i < |s.streams| && Live(s.streams[i]) ==> s.client == Some(i))
    && (s.client.Some? ==> s.client.value < |s.streams| && !s.streams[s.client.value].closed)
    && s.armed.Keys == (if s.reconnectTimer.Some? then {s.reconnectTimer.value} else {})
    && (s.reconnectTimer.Some? ==> s.reconnectTimer.value < s.timers)
  }

  lemma ConnectingKeeps(s: State, account: Account, attach: Attach)
    requires Inv(s)
    ensures Inv(Connecting(s, account, attach))
  {
  }

  lemma ClosingKeeps(s: State)
    requires Inv(s)
    ensures Inv(Closing(s)) && forall i :: 0 <= i < |s.streams| ==> !Live(Closing(s).streams[i])
  {
  }

  lemma SchedulingKeeps(s: State, cfg: Config, account: Account, random: real)
    requires Inv(s)
    ensures Inv(Scheduling(s, cfg, account, random))
  {
  }

  lemma ResumeKeeps(s: State, cfg: Config, task: Task, session: Option<Account>, attach: Attach, random: real)
    requires Inv(s)
    ensures Inv(Resume(s, cfg, task, session, attach, random))
  {
    hide Connecting, Scheduling;
    SchedulingKeeps(s, cfg, if task.Retries? then task.account else "", random);
    if session.Some? { ConnectingKeeps(s, session.value, attach); }
    if task.StartSaves? || task.PairSaves? { ConnectingKeeps(s, task.account, attach); }
  }

  lemma StepKeeps(s: State, cfg: Config, e: Event)
    requires Inv(s) && Possible(s, e)
    ensures Inv(Step(s, cfg, e))
  {
    hide Scheduling, Closing, Resume;
    match e
    case LogoutCalled => ClosingKeeps(s.(stopped := true));
    case SocketEnds(i, random) =>
      var ended := s.(streams := s.streams[i := s.streams[i].(socketOpen := false)]);
      assert Inv(ended);
      ClosingKeeps(ended);
      SchedulingKeeps(Closing(ended), cfg, s.streams[i].account, random);
    case Resumes(task, session, attach, random) =>
      ResumeKeeps(s.(tasks := s.tasks - multiset{task}), cfg, task, session, attach, random);
    case _ =>
  }

  // ---- Runs ----

  predicate History(s: State, cfg: Config, events: seq<Event>)
    decreases |events|
  {
    events == [] || (Possible(s, events[0]) && History(Step(s, cfg, events[0]), cfg, events[1..]))
  }

  function After(s: State, cfg: Config, events: seq<Event>): State
    requires History(s, cfg, events)
    decreases |events|
  {
    if events == [] then s else After(Step(s, cfg, events[0]), cfg, events[1..])
  }

  lemma {:induction false} RunKeeps(s: State, cfg: Config, events: seq<Event>)
    requires Inv(s) && History(s, cfg, events)
    ensures Inv(After(s, cfg, events))
    decreases |events|
  {
    hide Step, Inv, Possible;
    if events != [] {
      StepKeeps(s, cfg, events[0]);
      RunKeeps(Step(s, cfg, events[0]), cfg, events[1..]);
    }
  }

  /** In every run at most one stream is live, the one held, and at most one timer is armed. */
  lemma OneStreamOneTimer(cfg: Config, events: seq<Event>)
    requires History(FRESH, cfg, events)
    ensures var s := After(FRESH, cfg, events);
      && (forall i, j :: 0 <= i < |s.streams| && 0 <= j < |s.streams| && Live(s.streams[i]) && Live(s.streams[j])
            ==> i == j)
      && (forall i :: 0 <= i < |s.streams| && Live(s.streams[i]) ==> s.client == Some(i))
      && |s.armed| <= 1
  {
    RunKeeps(FRESH, cfg, events);
    var s := After(FRESH, cfg, events);
    assert |s.armed| == |s.armed.Keys|;
  }

  /** When a socket ends the connector gives up a stream and arms a timer if and only if it had not
      closed that stream itself; the stream it gives up is the one that ended. */
  lemma OnlyUnclosedDisconnects(cfg: Config, events: seq<Event>, i: nat, random: real)
    requires History(FRESH, cfg, events) && Possible(After(FRESH, cfg, events), SocketEnds(i, random))
    ensures var s := After(FRESH, cfg, events); var after := Step(s, cfg, SocketEnds(i, random));
      if s.streams[i].closed
      then after == s.(streams := s.streams[i := s.streams[i].(socketOpen := false)])
      else s.client == Some(i) && after.client.None? && after.streams[i].closed
           && (!s.stopped ==> after.reconnectTimer.Some?) && (s.stopped ==> after.reconnectTimer == s.reconnectTimer)
  {
    RunKeeps(FRESH, cfg, events);
  }

  lemma ResumeKeepsClosed(s: State, cfg: Config, task: Task, session: Option<Account>, attach: Attach,
                          random: real, i: nat)
    requires i < |s.streams| && s.streams[i].closed
    ensures var after := Resume(s, cfg, task, session, attach, random); i < |after.streams| && after.streams[i].closed
  {
    hide Ceiling, Delay;
  }

  lemma StepKeepsClosed(s: State, cfg: Config, e: Event, i: nat)
    requires Possible(s, e) && i < |s.streams| && s.streams[i].closed
    ensures var after := Step(s, cfg, e); i < |after.streams| && after.streams[i].closed
  {
    hide Resume, Ceiling, Delay;
    if e.Resumes? {
      ResumeKeepsClosed(s.(tasks := s.tasks - multiset{e.task}), cfg, e.task, e.session, e.attach, e.random, i);
    }
  }

  /** Streams once closed stay closed. */
  lemma {:induction false} ClosedForGood(s: State, cfg: Config, events: seq<Event>, i: nat)
    requires History(s, cfg, events) && i < |s.streams| && s.streams[i].closed
    ensures var end := After(s, cfg, events); i < |end.streams| && end.streams[i].closed
    decreases |events|
  {
    hide Step, Possible;
    if events != [] {
      StepKeepsClosed(s, cfg, events[0], i);
      ClosedForGood(Step(s, cfg, events[0]), cfg, events[1..], i);
    }
  }

  // ---- Backoff ----

  lemma {:induction false} Pow2Grows(a: nat, b: nat)
    requires a <= b
    ensures Pow2(a) <= Pow2(b)
    decreases b
  {
    if a < b { Pow2Grows(a, b - 1); }
  }

  lemma ProductGrows(b: nat, p: nat, q: nat)
    requires p <= q
    ensures 0 <= b * p <= b * q
  {
    assert b * (q - p) >= 0;
  }

  lemma CeilingGrows(cfg: Config, a: nat, b: nat)
    requires 0 < a <= b
    ensures Ceiling(cfg, a) <= Ceiling(cfg, b) <= cfg.max
  {
    hide Pow2;
    Pow2Grows(Min(a - 1, 16), Min(b - 1, 16));
    ProductGrows(cfg.base, Pow2(Min(a - 1, 16)), Pow2(Min(b - 1, 16)));
  }

  lemma RoundGrows(x: real, y: real)
    requires x <= y
    ensures Round(x) <= Round(y)
  {
  }

  lemma Jittered(c: nat, max: nat, random: real)
    requires c <= max && 0.0 <= random < 1.0
    ensures c as real * (0.5 + random) <= 1.5 * max as real
  {
    var x, spare := c as real, 1.0 - random;
    assert x >= 0.0 && spare >= 0.0;
    assert x * spare >= 0.0;
    assert x * (0.5 + random) == x * 1.5 - x * spare;
  }

  /** A delay is at least one millisecond and at most one and a half times the maximum. */
  lemma DelayBounds(cfg: Config, attempt: nat, random: real)
    requires attempt > 0 && 0.0 <= random < 1.0
    ensures 1 <= Delay(Ceiling(cfg, attempt), random) <= Max(1, Round(1.5 * cfg.max as real))
  {
    hide Ceiling, Round;
    CeilingGrows(cfg, attempt, attempt);
    Jittered(Ceiling(cfg, attempt), cfg.max, random);
    RoundGrows(Ceiling(cfg, attempt) as real * (0.5 + random), 1.5 * cfg.max as real);
  }

  predicate EntryOk(cfg: Config, entry: Entry) {
    entry.Scheduled? ==>
      entry.attempt > 0 && entry.ceiling == Ceiling(cfg, entry.attempt)
      && 1 <= entry.delay <= Max(1, Round(1.5 * cfg.max as real)) && Spread(entry.ceiling, entry.delay)
  }

  /** The delay lies between half the ceiling and one and a half times the ceiling, rounded. */
  predicate Spread(ceiling: nat, delay: int) {
    Max(1, Round(0.5 * ceiling as real)) <= delay <= Max(1, Round(1.5 * ceiling as real))
  }

  lemma DelaySpreads(ceiling: nat, random: real)
    requires 0.0 <= random < 1.0
    ensures Spread(ceiling, Delay(ceiling, random))
  {
    var x := ceiling as real;
    hide Round;
    Jittered(ceiling, ceiling, random);
    assert x * random >= 0.0;
    assert 0.5 * x <= x * (0.5 + random);
    RoundGrows(0.5 * x, x * (0.5 + random));
    RoundGrows(x * (0.5 + random), 1.5 * x);
  }

  /** It is half the ceiling and the drawn share of the ceiling, to the nearest millisecond, from one on. */
  lemma DelayIsDrawn(ceiling: nat, random: real)
    requires ceiling as real * (0.5 + random) >= 1.0
    ensures -0.5 <= Delay(ceiling, random) as real - ceiling as real * (0.5 + random) <= 0.5
  {
  }

  /** No reset lies between. */
  predicate SameSpell(log: seq<Entry>, i: int, j: int)
    requires 0 <= i <= j <= |log|
  {
    forall k :: i <= k < j ==> log[k].Scheduled?
  }

  /** Attempts count up by one within a spell, and the counter is the last one's. */
  predicate Counts(s: State) {
    && (s.log != [] ==> s.reconnectAttempts == Count(s.log[|s.log| - 1]))
    && (s.log == [] ==> s.reconnectAttempts == 0)
    && (s.log != [] ==> Count(s.log[0]) <= 1)
    && (forall i :: 0 < i < |s.log| && s.log[i].Scheduled? ==> s.log[i].attempt == Count(s.log[i - 1]) + 1)
  }

  function Count(entry: Entry): nat {
    if entry.Scheduled? then entry.attempt else 0
  }

  predicate LogOk(s: State, cfg: Config) {
    Counts(s) && forall i :: 0 <= i < |s.log| ==> EntryOk(cfg, s.log[i])
  }

  lemma SchedulingLogs(s: State, cfg: Config, account: Account, random: real)
    requires LogOk(s, cfg) && 0.0 <= random < 1.0
    ensures LogOk(Scheduling(s, cfg, account, random), cfg)
  {
    hide Ceiling, Delay, Round, Spread;
    DelayBounds(cfg, s.reconnectAttempts + 1, random);
    DelaySpreads(Ceiling(cfg, s.reconnectAttempts + 1), random);
  }

  predicate SameLog(a: State, b: State) {
    a.log == b.log && a.reconnectAttempts == b.reconnectAttempts
  }

  lemma SameLogOk(a: State, b: State, cfg: Config)
    requires SameLog(a, b) && LogOk(a, cfg)
    ensures LogOk(b, cfg)
  {
  }

  lemma ResumeLogs(s: State, cfg: Config, task: Task, session: Option<Account>, attach: Attach, random: real)
    requires LogOk(s, cfg) && 0.0 <= random < 1.0
    ensures LogOk(Resume(s, cfg, task, session, attach, random), cfg)
  {
    hide Scheduling, EntryOk;
    match task
    case Retries(account) => SchedulingLogs(s, cfg, account, random);
    case TimerResets => assert EntryOk(cfg, Reset) by { ResetOk(cfg); }
    case _ => SameLogOk(s, Resume(s, cfg, task, session, attach, random), cfg);
  }

  lemma ResetOk(cfg: Config)
    ensures EntryOk(cfg, Reset)
  {
  }

  lemma StepLogs(s: State, cfg: Config, e: Event)
    requires LogOk(s, cfg) && Possible(s, e)
    ensures LogOk(Step(s, cfg, e), cfg)
  {
    hide LogOk, Scheduling, Resume;
    match e
    case SocketEnds(i, random) =>
      var ended := s.(streams := s.streams[i := s.streams[i].(socketOpen := false)]);
      SameLogOk(s, ended, cfg);
      SameLogOk(s, Closing(ended), cfg);
      SchedulingLogs(Closing(ended), cfg, s.streams[i].account, random);
    case Resumes(task, session, attach, random) =>
      SameLogOk(s, s.(tasks := s.tasks - multiset{task}), cfg);
      ResumeLogs(s.(tasks := s.tasks - multiset{task}), cfg, task, session, attach, random);
    case _ => SameLogOk(s, Step(s, cfg, e), cfg);
  }

  lemma {:induction false} RunLogs(s: State, cfg: Config, events: seq<Event>)
    requires LogOk(s, cfg) && History(s, cfg, events)
    ensures LogOk(After(s, cfg, events), cfg)
    decreases |events|
  {
    hide Step, LogOk, Possible;
    if events != [] {
      StepLogs(s, cfg, events[0]);
      RunLogs(Step(s, cfg, events[0]), cfg, events[1..]);
    }
  }

  lemma {:induction false} SpellRises(s: State, cfg: Config, i: nat, j: nat)
    requires LogOk(s, cfg) && i <= j < |s.log| && SameSpell(s.log, i, j + 1)
    ensures s.log[i].attempt <= s.log[j].attempt
    decreases j
  {
    if i < j { SpellRises(s, cfg, i, j - 1); }
  }

  /** In every run each delay lies in its bounds, and the ceiling never falls between two
      schedulings with no successful timer reconnect in between. */
  lemma BackoffRises(cfg: Config, events: seq<Event>)
    requires History(FRESH, cfg, events)
    ensures var log := After(FRESH, cfg, events).log;
      && (forall i :: 0 <= i < |log| && log[i].Scheduled? ==> 1 <= log[i].delay <= Max(1, Round(1.5 * cfg.max as real)))
      && (forall i, j :: 0 <= i <= j < |log| && SameSpell(log, i, j + 1) ==> log[i].ceiling <= log[j].ceiling)
  {
    RunLogs(FRESH, cfg, events);
    var s := After(FRESH, cfg, events);
    hide History, After, Ceiling, Round;
    assert forall i :: 0 <= i < |s.log| ==> EntryOk(cfg, s.log[i]);
    forall i, j | 0 <= i <= j < |s.log| && SameSpell(s.log, i, j + 1) ensures s.log[i].ceiling <= s.log[j].ceiling {
      SpellRises(s, cfg, i, j);
      assert s.log[i].Scheduled? && s.log[j].Scheduled?;
      CeilingGrows(cfg, s.log[i].attempt, s.log[j].attempt);
    }
  }

  /** The first ceiling after a reset. */
  lemma FirstCeiling(cfg: Config)
    ensures Ceiling(cfg, 1) == Min(cfg.max, cfg.base)
  {
    assert Pow2(0) == 1;
  }

  lemma NextCeiling(cfg: Config, attempt: nat)
    requires attempt > 0
    ensures Ceiling(cfg, attempt + 1) == if attempt <= 16 then Min(cfg.max, 2 * Ceiling(cfg, attempt))
                                         else Ceiling(cfg, attempt)
  {
    if attempt <= 16 {
      var p := Pow2(attempt - 1);
      assert Pow2(attempt) == 2 * p;
      Doubled(cfg.base, p);
    }
  }

  lemma Doubled(b: nat, p: nat)
    ensures b * (2 * p) == 2 * (b * p) && b * p >= 0
  {
  }

  /** In every run the ceiling starts at the base after every successful timer reconnect, and at the first
      scheduling of all, and doubles with each scheduling after, sixteen times at most and never past the
      maximum; and each delay is between half and one and a half times its ceiling. */
  lemma BackoffDoubles(cfg: Config, events: seq<Event>, i: nat)
    requires History(FRESH, cfg, events)
    requires i < |After(FRESH, cfg, events).log| && After(FRESH, cfg, events).log[i].Scheduled?
    ensures var log := After(FRESH, cfg, events).log;
      && (i == 0 || log[i - 1].Reset? ==> log[i].attempt == 1 && log[i].ceiling == Min(cfg.max, cfg.base))
      && (i > 0 && log[i - 1].Scheduled? ==>
            && log[i].attempt == log[i - 1].attempt + 1
            && log[i].ceiling == if log[i - 1].attempt <= 16 then Min(cfg.max, 2 * log[i - 1].ceiling)
                                 else log[i - 1].ceiling)
      && Max(1, Round(0.5 * log[i].ceiling as real)) <= log[i].delay
      && log[i].delay <= Max(1, Round(1.5 * log[i].ceiling as real))
  {
    RunLogs(FRESH, cfg, events);
    var s := After(FRESH, cfg, events);
    hide History, After, Ceiling, Round, Min, Max;
    assert EntryOk(cfg, s.log[i]);
    FirstCeiling(cfg);
    if i > 0 && s.log[i - 1].Scheduled? {
      assert EntryOk(cfg, s.log[i - 1]);
      NextCeiling(cfg, s.log[i - 1].attempt);
    }
  }

  // ---- What does not hold ----

  lemma Prepend(s: State, cfg: Config, e: Event, rest: seq<Event>)
    requires Possible(s, e) && History(Step(s, cfg, e), cfg, rest)
    ensures History(s, cfg, [e] + rest) && After(s, cfg, [e] + rest) == After(Step(s, cfg, e), cfg, rest)
  {
    assert ([e] + rest)[1..] == rest;
  }

  /** A timer that fired before a logout, and read its session before that was removed, opens a
      stream after the logout. */
  lemma StreamAfterLogout(s: State, cfg: Config, t: nat, account: Account)
    requires Inv(s) && !s.stopped && s.client.None? && t in s.armed
    ensures var events := [TimerFires(t), LogoutCalled, Resumes(TimerReads(s.armed[t]), Some(account), Opens, 0.0)];
      History(s, cfg, events)
      && var end := After(s, cfg, events);
      end.stopped && end.client == Some(|s.streams|) && |end.streams| == |s.streams| + 1
        && Live(end.streams[|s.streams|])
  {
    hide Scheduling, Ceiling, Delay;
    var read := Resumes(TimerReads(s.armed[t]), Some(account), Opens, 0.0);
    var s1 := Step(s, cfg, TimerFires(t));
    var s2 := Step(s1, cfg, LogoutCalled);
    assert TimerReads(s.armed[t]) in s2.tasks;
    Prepend(s2, cfg, read, []);
    Prepend(s1, cfg, LogoutCalled, [read]);
    Prepend(s, cfg, TimerFires(t), [LogoutCalled, read]);
    assert [TimerFires(t)] + [LogoutCalled, read] == [TimerFires(t), LogoutCalled, read];
    assert [LogoutCalled] + [read] == [LogoutCalled, read] && [read] + [] == [read];
  }

  /** A connection attempt leaves a live stream if and only if one was live, or none was held and
      the socket could be made: when the socket cannot be made its close is reported before anyone
      listens, and the dead stream is kept with no timer armed. */
  lemma AttachedWhenLive(s: State, account: Account, attach: Attach)
    requires Inv(s)
    ensures var after := Connecting(s, account, attach);
      && ((exists i :: 0 <= i < |after.streams| && Live(after.streams[i]))
          <==> (exists i :: 0 <= i < |s.streams| && Live(s.streams[i])) || (s.client.None? && attach.Opens?))
      && (s.client.None? && attach.SocketFails? ==> after.client.Some? && after.reconnectTimer == s.reconnectTimer)
  {
    var after := Connecting(s, account, attach);
    if i :| 0 <= i < |s.streams| && Live(s.streams[i]) { assert Live(after.streams[i]); }
    if s.client.None? && attach.Opens? { assert Live(after.streams[|s.streams|]); }
  }
}
