/** When a logout is final, and what a stream that never opened does to the connector. */
module SignalLifecycle {
  import opened Options
  import opened SignalConnector

  predicate AnyLive(s: State) {
    exists i :: 0 <= i < |s.streams| && Live(s.streams[i])
  }

  // ---- Logout ----

  /** A call in hand that may still come to open a stream. */
  predicate MayOpen(task: Task) {
    task.StartReads? || task.StartSaves? || task.PairSaves? || task.TimerReads?
  }

  predicate NoneMayOpen(s: State) {
    forall task :: task in s.tasks ==> !MayOpen(task)
  }

  /** Nobody starts the connector or pairs an account. */
  predicate NobodyStarts(events: seq<Event>) {
    forall i :: 0 <= i < |events| ==> !events[i].StartCalled? && !events[i].Paired?
  }

  predicate LoggedOut(s: State) {
    s.stopped && s.client.None? && !AnyLive(s) && NoneMayOpen(s)
  }

  lemma LoggedOutStep(s: State, cfg: Config, e: Event)
    requires LoggedOut(s) && Possible(s, e) && !e.StartCalled? && !e.Paired?
    ensures LoggedOut(Step(s, cfg, e))
  {
    hide Ceiling, Delay;
    var after := Step(s, cfg, e);
    forall i | 0 <= i < |after.streams| ensures !Live(after.streams[i]) {
      assert i < |s.streams| && !Live(s.streams[i]);
    }
  }

  lemma {:induction false} LoggedOutStays(s: State, cfg: Config, events: seq<Event>)
    requires LoggedOut(s) && History(s, cfg, events) && NobodyStarts(events)
    ensures LoggedOut(After(s, cfg, events))
    decreases |events|
  {
    hide Step, LoggedOut, Possible;
    if events != [] {
      LoggedOutStep(s, cfg, events[0]);
      LoggedOutStays(Step(s, cfg, events[0]), cfg, events[1..]);
    }
  }

  lemma LogoutCloses(s: State, cfg: Config)
    requires Inv(s)
    ensures var out := Step(s, cfg, LogoutCalled);
      && out.stopped && out.client.None? && !AnyLive(out)
      && (forall task :: task in out.tasks <==> task in s.tasks || task == LogoutFinishes)
  {
    ClosingKeeps(s.(stopped := true));
  }

  /** With no stream held, a call about to connect opens one if its socket can be made. */
  lemma ConnectOpens(s: State, cfg: Config, task: Task, session: Option<Account>)
    requires s.client.None? && task in s.tasks
    requires task.StartSaves? || task.PairSaves? || (task.TimerReads? && session.Some?)
    ensures var e := Resumes(task, session, Opens, 0.0); History(s, cfg, [e]) && AnyLive(After(s, cfg, [e]))
  {
    var e := Resumes(task, session, Opens, 0.0);
    Prepend(s, cfg, e, []);
    assert [e] + [] == [e];
    var after := Step(s, cfg, e);
    assert After(after, cfg, []) == after;
    assert Live(after.streams[|s.streams|]);
  }

  /** Any call that may open a stream does, under some continuation. */
  lemma PendingOpens(s: State, cfg: Config, task: Task) returns (events: seq<Event>)
    requires s.client.None? && task in s.tasks && MayOpen(task)
    ensures NobodyStarts(events) && History(s, cfg, events) && AnyLive(After(s, cfg, events))
  {
    if task.StartReads? {
      var e := Resumes(StartReads, Some("account"), Opens, 0.0);
      var next := Step(s, cfg, e);
      var saves := StartSaves("account");
      assert saves in next.tasks;
      ConnectOpens(next, cfg, saves, None);
      Prepend(s, cfg, e, [Resumes(saves, None, Opens, 0.0)]);
      events := [e] + [Resumes(saves, None, Opens, 0.0)];
    } else {
      ConnectOpens(s, cfg, task, Some("account"));
      events := [Resumes(task, Some("account"), Opens, 0.0)];
    }
  }

  /** No continuation without a new start or pairing ever brings up a stream. */
  ghost predicate StaysDown(s: State, cfg: Config) {
    forall events :: History(s, cfg, events) && NobodyStarts(events) ==> !AnyLive(After(s, cfg, events))
  }

  /** A logout is final, until someone starts the connector or pairs an account again, if and only
      if no call that may still open a stream was in hand when it was made: a start reading its
      session or saving its account, a pairing saving its account, or a timer reading its session. */
  lemma LogoutIsFinal(s: State, cfg: Config)
    requires Inv(s)
    ensures StaysDown(Step(s, cfg, LogoutCalled), cfg) <==> NoneMayOpen(s)
  {
    hide Step, History, After, AnyLive;
    LogoutCloses(s, cfg);
    var out := Step(s, cfg, LogoutCalled);
    if NoneMayOpen(s) {
      forall events | History(out, cfg, events) && NobodyStarts(events) ensures !AnyLive(After(out, cfg, events)) {
        LoggedOutStays(out, cfg, events);
      }
    } else {
      var task :| task in s.tasks && MayOpen(task);
      var events := PendingOpens(out, cfg, task);
      assert !StaysDown(out, cfg);
    }
  }

  // ---- A stream that never opened ----

  /** Stream `i` is held though its socket never came up or is gone, and nobody closed it. */
  predicate HoldsDead(s: State, i: nat) {
    s.client == Some(i) && i < |s.streams| && !s.streams[i].socketOpen && !s.streams[i].closed
  }

  predicate NoTimer(s: State) {
    s.armed == map[] && s.reconnectTimer.None? && forall task :: task in s.tasks ==> !task.Retries?
  }

  /** The call goes on to open a stream. */
  predicate Attaches(task: Task, session: Option<Account>) {
    task.StartSaves? || task.PairSaves? || (task.TimerReads? && session.Some?)
  }

  /** A connection attempt whose socket cannot be made ends holding a dead stream. */
  lemma SocketFailureHeld(s: State, cfg: Config, task: Task, session: Option<Account>, random: real)
    requires Inv(s) && s.client.None? && Attaches(task, session)
    requires Possible(s, Resumes(task, session, SocketFails, random))
    ensures var dead := Step(s, cfg, Resumes(task, session, SocketFails, random));
      Inv(dead) && HoldsDead(dead, |s.streams|) && (NoTimer(s) ==> NoTimer(dead))
  {
    StepKeeps(s, cfg, Resumes(task, session, SocketFails, random));
    hide Inv;
  }

  lemma HoldsDeadResume(s: State, cfg: Config, task: Task, session: Option<Account>, attach: Attach, random: real,
                        i: nat)
    requires HoldsDead(s, i)
    ensures HoldsDead(Resume(s, cfg, task, session, attach, random), i)
    ensures NoTimer(s) && !task.Retries? ==> NoTimer(Resume(s, cfg, task, session, attach, random))
  {
    hide Ceiling, Delay;
  }

  lemma HoldsDeadStep(s: State, cfg: Config, e: Event, i: nat)
    requires Inv(s) && HoldsDead(s, i) && Possible(s, e) && !e.LogoutCalled?
    ensures Inv(Step(s, cfg, e)) && HoldsDead(Step(s, cfg, e), i)
    ensures NoTimer(s) ==> NoTimer(Step(s, cfg, e))
  {
    StepKeeps(s, cfg, e);
    hide Inv, Resume, Scheduling, Closing;
    match e
    case SocketEnds(j, _) => EndedIsClosed(s, j, i);
    case Resumes(task, session, attach, random) =>
      HoldsDeadResume(s.(tasks := s.tasks - multiset{task}), cfg, task, session, attach, random, i);
    case _ =>
  }

  /** While a dead stream is held, every socket still open is of a stream already closed. */
  lemma EndedIsClosed(s: State, j: nat, i: nat)
    requires Inv(s) && HoldsDead(s, i) && j < |s.streams| && s.streams[j].socketOpen
    ensures s.streams[j].closed
  {
    assert Live(s.streams[j]) ==> s.client == Some(j);
  }

  predicate NobodyLogsOut(events: seq<Event>) {
    forall k :: 0 <= k < |events| ==> !events[k].LogoutCalled?
  }

  lemma {:induction false} HoldsDeadStays(s: State, cfg: Config, events: seq<Event>, i: nat)
    requires Inv(s) && HoldsDead(s, i) && History(s, cfg, events) && NobodyLogsOut(events)
    ensures var end := After(s, cfg, events); Inv(end) && HoldsDead(end, i) && (NoTimer(s) ==> NoTimer(end))
    decreases |events|
  {
    hide Step, Inv, HoldsDead, NoTimer, Possible;
    if events != [] {
      HoldsDeadStep(s, cfg, events[0], i);
      HoldsDeadStays(Step(s, cfg, events[0]), cfg, events[1..], i);
    }
  }

  /** A logout closes the stream held. */
  lemma LogoutReleases(s: State, cfg: Config, i: nat)
    requires Inv(s) && HoldsDead(s, i)
    ensures var out := Step(s, cfg, LogoutCalled); Inv(out) && i < |out.streams| && out.streams[i].closed
  {
    StepKeeps(s, cfg, LogoutCalled);
  }

  lemma {:induction false} ReleasedOnLogout(s: State, cfg: Config, events: seq<Event>, i: nat, k: nat)
    requires Inv(s) && HoldsDead(s, i) && History(s, cfg, events)
    requires k < |events| && events[k].LogoutCalled? && NobodyLogsOut(events[..k])
    ensures var end := After(s, cfg, events); Inv(end) && i < |end.streams| && end.streams[i].closed
    decreases |events|
  {
    hide Step, Inv, HoldsDead, Possible;
    if k == 0 {
      LogoutReleases(s, cfg, i);
      ClosedForGood(Step(s, cfg, events[0]), cfg, events[1..], i);
      RunKeeps(Step(s, cfg, events[0]), cfg, events[1..]);
    } else {
      assert events[..k][0] == events[0];
      HoldsDeadStep(s, cfg, events[0], i);
      assert events[1..][..k - 1] == events[..k][1..];
      ReleasedOnLogout(Step(s, cfg, events[0]), cfg, events[1..], i, k - 1);
    }
  }

  lemma {:induction false} FirstLogout(events: seq<Event>) returns (k: nat)
    requires !NobodyLogsOut(events)
    ensures k < |events| && events[k].LogoutCalled? && NobodyLogsOut(events[..k])
  {
    if events[0].LogoutCalled? {
      k := 0;
    } else {
      assert exists j :: 0 <= j < |events| - 1 && events[1..][j].LogoutCalled? by {
        var j :| 0 <= j < |events| && events[j].LogoutCalled?;
        assert events[1..][j - 1] == events[j];
      }
      k := FirstLogout(events[1..]);
      k := k + 1;
      assert events[..k] == [events[0]] + events[1..][..k - 1];
    }
  }

  /** Once the socket of a new stream cannot be made, that dead stream is held for good if and only
      if nobody logs out. While it is held no stream is ever live, and if no timer was armed and no
      retry was in hand at the time none ever is: the connector does not recover by itself. */
  lemma SocketFailureIsFinal(s: State, cfg: Config, task: Task, session: Option<Account>, random: real,
                             events: seq<Event>)
    requires Inv(s) && s.client.None? && Attaches(task, session)
    requires Possible(s, Resumes(task, session, SocketFails, random))
    requires History(Step(s, cfg, Resumes(task, session, SocketFails, random)), cfg, events)
    ensures var end := After(Step(s, cfg, Resumes(task, session, SocketFails, random)), cfg, events);
      && (end.client == Some(|s.streams|) <==> NobodyLogsOut(events))
      && (NobodyLogsOut(events) ==> !AnyLive(end) && (NoTimer(s) ==> NoTimer(end)))
  {
    SocketFailureHeld(s, cfg, task, session, random);
    hide Step, NoTimer, Possible;
    var dead := Step(s, cfg, Resumes(task, session, SocketFails, random));
    if NobodyLogsOut(events) {
      HoldsDeadStays(dead, cfg, events, |s.streams|);
    } else {
      var k := FirstLogout(events);
      ReleasedOnLogout(dead, cfg, events, |s.streams|, k);
    }
  }

  // ---- Whose stream, and whose turn ----

  /** A call that opens a stream opens it for its own account, a timer's for the account the session names; a
      timer that cannot tries again for its own. */
  lemma WhoseStream(s: State, cfg: Config, task: Task, session: Option<Account>, attach: Attach, random: real)
    requires Possible(s, Resumes(task, session, attach, random)) && s.client.None? && Attaches(task, session)
    ensures var after, rest := Step(s, cfg, Resumes(task, session, attach, random)), s.tasks - multiset{task};
            var account := if task.TimerReads? then session.value else task.account;
      if attach.Throws? then after == s.(tasks := rest + multiset{Retries(task.account)})
      else
        && after.streams == s.streams + [Stream(account, attach.Opens?, false)]
        && after.client == Some(|s.streams|)
        && after.tasks == (if task.TimerReads? then rest + multiset{TimerResets} else rest)
  {
  }

  /** A socket that ends, and a call that retries, arm their timer for their own account; when it fires, its call
      has that account. */
  lemma WhoseTimer(s: State, cfg: Config, e: Event)
    requires Possible(s, e) && !s.stopped && s.reconnectTimer.None?
    requires (e.SocketEnds? && !s.streams[e.stream].closed) || (e.Resumes? && e.task.Retries?)
    ensures var account := if e.SocketEnds? then s.streams[e.stream].account else e.task.account;
            var after := Step(s, cfg, e);
      && after.reconnectTimer == Some(s.timers) && after.armed == s.armed[s.timers := account]
      && var fired := Step(after, cfg, TimerFires(s.timers));
      fired.tasks == after.tasks + multiset{TimerReads(account)} && fired.reconnectTimer.None?
  {
    hide Ceiling, Delay;
  }

  /** The account in use is the one last paired or read by a start, and none once a logout is finished. */
  lemma AccountInUse(s: State, cfg: Config, e: Event)
    requires Possible(s, e)
    ensures Step(s, cfg, e).liveAccount ==
      if e.Paired? then Some(e.account)
      else if e.Resumes? && e.task.StartReads? && e.session.Some? then e.session
      else if e.Resumes? && e.task.LogoutFinishes? then None
      else s.liveAccount
  {
    hide Scheduling, Closing, Resume;
    match e
    case Resumes(task, session, attach, random) =>
      ResumeAccount(s.(tasks := s.tasks - multiset{task}), cfg, task, session, attach, random);
    case SocketEnds(i, random) =>
      var ended := s.(streams := s.streams[i := s.streams[i].(socketOpen := false)]);
      ClosingCalls(ended);
      SchedulingCalls(Closing(ended), cfg, s.streams[i].account, random);
    case LogoutCalled => ClosingCalls(s.(stopped := true));
    case _ =>
  }

  lemma ResumeAccount(s: State, cfg: Config, task: Task, session: Option<Account>, attach: Attach, random: real)
    ensures Resume(s, cfg, task, session, attach, random).liveAccount ==
      if task.StartReads? && session.Some? then session else if task.LogoutFinishes? then None else s.liveAccount
  {
    hide Scheduling;
    SchedulingCalls(s, cfg, if task.Retries? then task.account else "", random);
  }

  /** A start after a logout brings the connector back: its stream comes up, and when the socket ends a timer is
      armed again. */
  lemma StartRevives(s: State, cfg: Config, account: Account, random: real)
    requires Inv(s) && s.client.None? && s.reconnectTimer.None? && 0.0 <= random < 1.0
    ensures var s1 := Step(s, cfg, StartCalled); var fetch := Resumes(StartReads, Some(account), Opens, random);
      && Possible(s1, fetch)
      && var s2, saves := Step(s1, cfg, fetch), Resumes(StartSaves(account), None, Opens, random);
      && Possible(s2, saves)
      && var s3 := Step(s2, cfg, saves);
      && s3.client == Some(|s.streams|) && AnyLive(s3) && Possible(s3, SocketEnds(|s.streams|, random))
      && Step(s3, cfg, SocketEnds(|s.streams|, random)).reconnectTimer == Some(s.timers)
  {
    hide Ceiling, Delay;
    var s1 := Step(s, cfg, StartCalled);
    var s2 := Step(s1, cfg, Resumes(StartReads, Some(account), Opens, random));
    var s3 := Step(s2, cfg, Resumes(StartSaves(account), None, Opens, random));
    assert Live(s3.streams[|s.streams|]);
  }

  /** A timer that reconnects ends the spell: its call goes on to reset the count, and the next ceiling is the
      base again. */
  lemma ReconnectResets(s: State, cfg: Config, account: Account, named: Account, random: real, again: real)
    requires Possible(s, Resumes(TimerReads(account), Some(named), Opens, random))
    requires Inv(s) && s.client.None? && !s.stopped && s.reconnectTimer.None? && 0.0 <= again < 1.0
    ensures var s1 := Step(s, cfg, Resumes(TimerReads(account), Some(named), Opens, random));
      && TimerResets in s1.tasks
      && var s2 := Step(s1, cfg, Resumes(TimerResets, None, Opens, random));
      && s2.reconnectAttempts == 0 && s2.log == s.log + [Reset]
      && Possible(s2, SocketEnds(|s.streams|, again))
      && var s3 := Step(s2, cfg, SocketEnds(|s.streams|, again));
      |s3.log| == |s.log| + 2 && s3.log[|s.log| + 1].Scheduled? && s3.log[|s.log| + 1].attempt == 1
        && s3.log[|s.log| + 1].ceiling == Min(cfg.max, cfg.base)
  {
    FirstCeiling(cfg);
    hide Ceiling, Delay;
  }

  /** The call goes on after this wait to another. */
  predicate GoesOn(s: State, task: Task, session: Option<Account>, attach: Attach) {
    || (task.StartReads? && session.Some?)
    || (task.TimerReads? && session.Some?)
    || ((task.StartSaves? || task.PairSaves?) && s.client.None? && attach.Throws?)
  }

  /** Every call in hand is accounted for: a start, a pairing, a logout and a timer that fires unless stopped begin
      one each; one that resumes goes on or is over; one that fails is over; and nothing else begins or ends any. */
  lemma CallsAccounted(s: State, cfg: Config, e: Event)
    requires Possible(s, e)
    ensures |Step(s, cfg, e).tasks| ==
      match e
      case StartCalled => |s.tasks| + 1
      case Paired(_) => |s.tasks| + 1
      case LogoutCalled => |s.tasks| + 1
      case TimerFires(_) => if s.stopped then |s.tasks| else |s.tasks| + 1
      case Resumes(task, session, attach, _) => if GoesOn(s, task, session, attach) then |s.tasks| else |s.tasks| - 1
      case Fails(_) => |s.tasks| - 1
      case SocketEnds(_, _) => |s.tasks|
  {
    hide Scheduling, Resume, Closing;
    match e
    case Resumes(task, session, attach, random) =>
      assert |s.tasks - multiset{task}| == |s.tasks| - 1;
      ResumeCalls(s.(tasks := s.tasks - multiset{task}), cfg, task, session, attach, random);
    case SocketEnds(i, random) =>
      var ended := s.(streams := s.streams[i := s.streams[i].(socketOpen := false)]);
      ClosingCalls(ended);
      SchedulingCalls(Closing(ended), cfg, s.streams[i].account, random);
    case LogoutCalled => ClosingCalls(s.(stopped := true));
    case _ =>
  }

  lemma ResumeCalls(s: State, cfg: Config, task: Task, session: Option<Account>, attach: Attach, random: real)
    ensures |Resume(s, cfg, task, session, attach, random).tasks|
      == if GoesOn(s, task, session, attach) then |s.tasks| + 1 else |s.tasks|
  {
    hide Scheduling;
    SchedulingCalls(s, cfg, if task.Retries? then task.account else "", random);
  }

  lemma ClosingCalls(s: State)
    ensures Closing(s).tasks == s.tasks && Closing(s).liveAccount == s.liveAccount
  {
  }

  lemma SchedulingCalls(s: State, cfg: Config, account: Account, random: real)
    ensures var after := Scheduling(s, cfg, account, random);
      after.tasks == s.tasks && after.liveAccount == s.liveAccount
  {
  }

  /** A pairing opens a stream for the account paired, whatever account was in use. */
  lemma PairingOpens(s: State, cfg: Config, account: Account, random: real)
    requires s.client.None? && 0.0 <= random < 1.0
    ensures var s1, saves := Step(s, cfg, Paired(account)), Resumes(PairSaves(account), None, Opens, random);
      && Possible(s1, saves) && s1.liveAccount == Some(account)
      && var s2 := Step(s1, cfg, saves);
      s2.client == Some(|s.streams|) && s2.streams == s.streams + [Stream(account, true, false)]
  {
    hide Ceiling, Delay;
  }
}
