/** What the attempt tells its user, in terms of what the process heard from the SDK and the user. */
module VerificationReports {
  import opened Options
  import opened VerificationDriver
  import opened VerificationMonitor
  import opened VerificationAgreement
  import opened VerificationPrompt
  import opened VerificationCancel

  // ---- One step ----

  /** The step reports one event and does nothing else. */
  predicate Reports(m: Machine, after: Machine) {
    |after.trace| == |m.trace| + 1 && m.trace == after.trace[..|m.trace|] && after.trace[|m.trace|].Emit?
  }

  /** Keys exchanged are reported at once, with all their emoji and numbers, and then wait for the user. */
  lemma ExchangeIsShown(m: Machine, emojis: seq<Emoji>, decimals: seq<int>, target: string)
    requires m.stage.Comparing?
    ensures var after := Step(m, SasChange(KeysExchanged(Some(emojis), decimals)), target);
      && Reports(m, after)
      && var p := after.trace[|m.trace|].payload;
      && p.event == "emoji_ready" && p.emojis == Some(emojis) && p.decimals == Some(decimals)
      && after.stage == Comparing(true)
  {
  }

  // ---- The emoji the attempt shows ----

  /** Everything that wakes a run: the state its request is found in, then the inputs. */
  function Wakes(initial: RequestState, inputs: seq<Input>): seq<Input> {
    [RequestChange(initial)] + inputs
  }

  function Exchange(s: SasState): Option<SasState> {
    if s.KeysExchanged? then Some(s) else None
  }

  /** The exchange of keys an input tells of, to a process at this stage. */
  function Heard(stage: Stage, i: Input): Option<SasState> {
    if stage.Comparing? && i.SasChange? then Exchange(i.sas)
    else if stage.Requesting? && i.RequestChange? && i.request.Ready? && i.request.start.Started? then
      Exchange(i.request.start.now)
    else if stage.Requesting? && i.RequestChange? && i.request.Transitioned? && i.request.sas.Some? then
      Exchange(i.request.sas.value)
    else None
  }

  /** The last exchange of keys heard in the first `n` wake-ups. */
  function LastHeard(m: Machine, wakes: seq<Input>, n: nat, target: string): Option<SasState>
    requires n <= |wakes|
  {
    if n == 0 then None else
    var heard := Heard(Feed(m, wakes[..n - 1], 0, target).stage, wakes[n - 1]);
    if heard.Some? then heard else LastHeard(m, wakes, n - 1, target)
  }

  /** The last event reported, if it is a prompt, shows this exchange. */
  predicate Shows(m: Machine, x: Option<SasState>) {
    EndsPrompting(Emitted(m.trace)) ==>
      && x.Some? && x.value.KeysExchanged?
      && var p := Emitted(m.trace)[|Emitted(m.trace)| - 1];
         p.emojis == Some(x.value.emojis.GetOr([])) && p.decimals == Some(x.value.decimals)
  }

  lemma SaysOther(m: Machine, p: Payload, next: Stage, x: Option<SasState>)
    requires !Prompts(p)
    ensures Shows(m.Say(p), x) && Shows(m.Say(p).To(next), x)
  {
    EmittedSay(m, p);
  }

  lemma DoesKeeps(m: Machine, act: Act, next: Stage, x: Option<SasState>)
    requires Shows(m, x) && !act.Emit?
    ensures Shows(m.Do(act), x) && Shows(m.Do(act).To(next), x)
  {
    EmittedDo(m, act);
  }

  lemma ShowsOnSas(m: Machine, s: SasState, x: Option<SasState>)
    requires Shows(m, x)
    ensures Shows(OnSas(m, s), if s.KeysExchanged? then Some(s) else x)
  {
    hide Shows;
    match s
    case SasCreated => SaysOther(m, Plain("sas_created", "waiting_for_emoji"), m.stage, x);
    case SasStarted => SaysOther(m, Plain("sas_started", "waiting_for_emoji"), m.stage, x);
    case SasAccepted => SaysOther(m, Plain("sas_accepted", "waiting_for_emoji"), m.stage, x);
    case KeysExchanged(e, d) => ShowsPrompt(m, s);
    case SasConfirmed => SaysOther(m, Plain("sas_confirmed", "confirming"), m.stage, x);
    case SasDone => SaysOther(m, Complete("done"), Exited(true), x);
    case SasCancelled(reason) => SaysOther(m, CancelledFor(reason), Exited(false), x);
  }

  lemma ShowsPrompt(m: Machine, s: SasState)
    requires s.KeysExchanged?
    ensures Shows(OnSas(m, s), Some(s))
  {
    EmittedSay(m.To(Comparing(true)), EmojiReady(s.emojis, s.decimals));
  }

  lemma ShowsTo(m: Machine, next: Stage, x: Option<SasState>)
    requires Shows(m, x)
    ensures Shows(m.To(next), x)
  {
  }

  lemma ShowsOnRequest(m: Machine, s: RequestState, target: string, x: Option<SasState>)
    requires Shows(m, x) && m.stage.Requesting?
    ensures var heard := Heard(m.stage, RequestChange(s));
      Shows(OnRequest(m, s, target), if heard.Some? then heard else x)
  {
    hide Shows, OnSas, ReadyDetail;
    match s
    case Created => SaysOther(m, Plain("request_pending", "waiting_for_accept"), m.stage, x);
    case Requested(other) => SaysOther(m, Acknowledged(other), m.stage, x);
    case Ready(other, start) =>
      var p := RequestReady(other, target);
      SaysOther(m, p, m.stage, x);
      DoesKeeps(m.Say(p), StartsSas, Exited(false), x);
      DoesKeeps(m.Say(p), StartsSas, Comparing(false), x);
      if start.Started? { ShowsOnSas(m.Say(p).Do(StartsSas).To(Comparing(false)), start.now, x); }
    case Transitioned(None) =>
    case Transitioned(Some(now)) =>
      var p := Plain("sas_started", "waiting_for_emoji");
      SaysOther(m, p, Comparing(false), x);
      ShowsOnSas(m.Say(p).To(Comparing(false)), now, x);
    case RequestDone => SaysOther(m, Complete("done"), Exited(true), x);
    case RequestCancelled(reason) => SaysOther(m, CancelledFor(reason), Exited(false), x);
  }

  lemma ShowsDecide(m: Machine, act: Act, works: bool, next: Stage, report: Payload, x: Option<SasState>)
    requires Shows(m, x) && !act.Emit? && !Prompts(report)
    ensures Shows(Decide(m, act, works, next, report), x)
  {
    hide Shows;
    DoesKeeps(m, act, next, x);
    DoesKeeps(m, act, Exited(false), x);
    SaysOther(m.Do(act).To(next), report, next, x);
  }

  lemma ShowsStep(m: Machine, i: Input, target: string, x: Option<SasState>)
    requires Shows(m, x)
    ensures var heard := Heard(m.stage, i); Shows(Step(m, i, target), if heard.Some? then heard else x)
  {
    hide Shows, OnSas, OnRequest, Decide;
    match i
    case Command(c, works) =>
      ShowsDecide(m, CancelsRequest, works, Requesting, Plain("request_cancelled_locally", "cancelled"), x);
      ShowsDecide(m, CancelsSas, works, Comparing(false), Plain("verification_cancelled_locally", "cancelled"), x);
      ShowsDecide(m, Confirms, works, Comparing(false), Plain("verification_confirmed", "confirming"), x);
      ShowsDecide(m, Mismatches, works, Comparing(false), Plain("verification_rejected", "rejected"), x);
    case CommandsClosed =>
    case RequestChange(s) => if m.stage.Requesting? { ShowsOnRequest(m, s, target, x); }
    case SasChange(s) => ShowsOnSas(m, s, x);
    case StreamEnd => ShowsTo(m, Exited(false), x);
  }

  /** One wake-up more is one step more, unless the process has exited. */
  lemma FeedLast(m: Machine, wakes: seq<Input>, n: nat, target: string)
    requires 0 < n <= |wakes|
    ensures var before := Feed(m, wakes[..n - 1], 0, target);
      Feed(m, wakes[..n], 0, target) == if before.stage.Exited? then before else Step(before, wakes[n - 1], target)
  {
    hide Step;
    FeedSplit(m, wakes[..n], 0, n - 1, target);
    assert wakes[..n][..n - 1] == wakes[..n - 1];
    var before := Feed(m, wakes[..n - 1], 0, target);
    if !before.stage.Exited? {
      var after := Step(before, wakes[n - 1], target);
      assert wakes[..n][n - 1] == wakes[n - 1];
      assert Feed(before, wakes[..n], n - 1, target) == Feed(after, wakes[..n], n, target) == after;
    }
  }

  lemma {:induction false} ShowsLastHeard(m: Machine, wakes: seq<Input>, n: nat, target: string)
    requires n <= |wakes| && !EndsPrompting(Emitted(m.trace))
    ensures Shows(Feed(m, wakes[..n], 0, target), LastHeard(m, wakes, n, target))
  {
    hide Step, Shows, Heard;
    if n == 0 {
      StartsShowing(m);
      assert Feed(m, wakes[..0], 0, target) == m;
    } else {
      ShowsLastHeard(m, wakes, n - 1, target);
      FeedLast(m, wakes, n, target);
      var before := Feed(m, wakes[..n - 1], 0, target);
      if before.stage.Exited? {
        ExitedHears(before, wakes[n - 1]);
      } else {
        ShowsStep(before, wakes[n - 1], target, LastHeard(m, wakes, n - 1, target));
      }
    }
  }

  lemma StartsShowing(m: Machine)
    requires !EndsPrompting(Emitted(m.trace))
    ensures Shows(m, None)
  {
  }

  lemma ExitedHears(m: Machine, i: Input)
    requires m.stage.Exited?
    ensures Heard(m.stage, i).None?
  {
  }

  lemma {:induction false} FeedShifts(m: Machine, first: Input, inputs: seq<Input>, from: nat, target: string)
    requires from <= |inputs|
    ensures Feed(m, [first] + inputs, from + 1, target) == Feed(m, inputs, from, target)
    decreases |inputs| - from
  {
    hide Step;
    if from < |inputs| && !m.stage.Exited? {
      assert ([first] + inputs)[from + 1] == inputs[from];
      FeedShifts(Step(m, inputs[from], target), first, inputs, from + 1, target);
    }
  }

  /** A run is its preparation, woken by the request's state and by the inputs. */
  lemma RunIsFed(setup: Setup, initial: RequestState, inputs: seq<Input>, target: string)
    ensures var wakes := Wakes(initial, inputs);
      Run(setup, initial, inputs, target) == Feed(Prepare(setup, target), wakes[..|wakes|], 0, target)
  {
    hide Prepare, OnRequest;
    var m, wakes := Prepare(setup, target), Wakes(initial, inputs);
    assert wakes[..|wakes|] == wakes;
    if !m.stage.Exited? {
      PreparedRequests(setup, target);
      assert wakes[0] == RequestChange(initial);
      FeedShifts(OnRequest(m, initial, target), RequestChange(initial), inputs, 0, target);
    }
  }

  lemma PreparedRequests(setup: Setup, target: string)
    ensures Prepare(setup, target).stage.Exited? || Prepare(setup, target).stage.Requesting?
  {
  }

  /** In every run: while an up-to-date attempt asks the user to compare emoji, the emoji and the numbers it
      shows are those of the last exchange of keys the process heard of. */
  lemma AsksAboutLastExchange(setup: Setup, initial: RequestState, inputs: seq<Input>, target: string,
                              lines: seq<Line>)
    requires !Prepare(setup, target).stage.Exited?
    requires Payloads(lines) == Emitted(Run(setup, initial, inputs, target).trace)
    requires Watched(STARTING, lines).status == "waiting_for_confirm"
    ensures var wakes, r := Wakes(initial, inputs), Watched(STARTING, lines);
            var heard := LastHeard(Prepare(setup, target), wakes, |wakes|, target);
      && heard.Some? && heard.value.KeysExchanged?
      && r.emojis == heard.value.emojis.GetOr([]) && r.decimals == heard.value.decimals
  {
    hide Prepare, Run, Feed, Emitted, Payloads, Watched, LastHeard, Heard, AllLabelled;
    var wakes := Wakes(initial, inputs);
    RunAsks(setup, initial, inputs, target);
    AskedAfterPrompt(lines);
    RunIsFed(setup, initial, inputs, target);
    NoPromptYet(setup, target);
    ShowsLastHeard(Prepare(setup, target), wakes, |wakes|, target);
  }

  lemma NoPromptYet(setup: Setup, target: string)
    requires !Prepare(setup, target).stage.Exited?
    ensures !EndsPrompting(Emitted(Prepare(setup, target).trace))
  {
    hide Prepare, AllLabelled;
    AsksPrepare(setup, target);
    PreparedRequests(setup, target);
  }

  // ---- Why it was cancelled ----

  /** The reason an input gives for a cancel by the other side, to a process at this stage. */
  function Called(stage: Stage, i: Input): Option<string> {
    match stage
    case Exited(_) => None
    case Comparing(_) => if i.SasChange? && i.sas.SasCancelled? then Some(i.sas.reason) else None
    case Requesting =>
      if !i.RequestChange? then None
      else match i.request
        case RequestCancelled(reason) => Some(reason)
        case Ready(_, Started(SasCancelled(reason))) => Some(reason)
        case Transitioned(Some(SasCancelled(reason))) => Some(reason)
        case _ => None
  }

  /** The machine has exited, and a cancel for this reason is the last it reported. */
  predicate CancelledLast(m: Machine, reason: string) {
    && m.stage == Exited(false) && Emitted(m.trace) != []
    && var p := Emitted(m.trace)[|Emitted(m.trace)| - 1];
       p.event == "verification_cancelled" && p.reason == Some(reason) && p.detail.None?
  }

  lemma SaysCancelled(m: Machine, reason: string)
    ensures CancelledLast(m.Say(CancelledFor(reason)).To(Exited(false)), reason)
    ensures CancelledLast(OnSas(m, SasCancelled(reason)), reason)
  {
    EmittedSay(m, CancelledFor(reason));
  }

  lemma CalledOff(m: Machine, i: Input, target: string)
    requires Called(m.stage, i).Some?
    ensures CancelledLast(Step(m, i, target), Called(m.stage, i).value)
  {
    hide ReadyDetail, OnSas, CancelledLast;
    var reason := Called(m.stage, i).value;
    SaysCancelled(m, reason);
    if m.stage.Requesting? {
      match i.request
      case Ready(other, _) =>
        SaysCancelled(m.Say(RequestReady(other, target)).Do(StartsSas).To(Comparing(false)), reason);
      case Transitioned(_) =>
        SaysCancelled(m.Say(Plain("sas_started", "waiting_for_emoji")).To(Comparing(false)), reason);
      case _ =>
    }
  }

  predicate SaysWhy(r: Record, reason: string) {
    && r.done && r.status == "cancelled"
    && r.error == Some(if reason == "" then "Verification cancelled" else reason)
    && (reason != "" ==> r.detail == reason)
  }

  lemma CancelApplied(r: Record, p: Payload, reason: string)
    requires p.event == "verification_cancelled" && p.reason == Some(reason) && p.detail.None?
    ensures SaysWhy(Applied(r, p), reason)
  {
  }

  /** What is cancelled last is what the record says. */
  lemma {:induction false} CancelRecorded(lines: seq<Line>, reason: string)
    requires Payloads(lines) != []
    requires var p := Payloads(lines)[|Payloads(lines)| - 1];
      p.event == "verification_cancelled" && p.reason == Some(reason) && p.detail.None?
    ensures SaysWhy(Watched(STARTING, lines), reason)
  {
    hide Applied, Log;
    if lines[|lines| - 1].Text? {
      assert Payloads(lines) == Payloads(lines[..|lines| - 1]);
      CancelRecorded(lines[..|lines| - 1], reason);
    } else {
      CancelApplied(Watched(STARTING, lines[..|lines| - 1]), lines[|lines| - 1].payload, reason);
    }
  }

  /** If the other side calls the verification off, the attempt ends cancelled, and its error and detail are
      the reason that was given. */
  lemma CancelTellsWhy(setup: Setup, initial: RequestState, inputs: seq<Input>, n: nat, target: string,
                       lines: seq<Line>, code: int, stderr: seq<string>)
    requires var wakes, m := Wakes(initial, inputs), Prepare(setup, target);
      n < |wakes| && Called(Feed(m, wakes[..n], 0, target).stage, wakes[n]).Some?
    requires Payloads(lines) == Emitted(Run(setup, initial, inputs, target).trace)
    ensures var wakes, m := Wakes(initial, inputs), Prepare(setup, target);
            var reason := Called(Feed(m, wakes[..n], 0, target).stage, wakes[n]).value;
            var end := Finished(Watched(STARTING, lines), code, stderr);
      && end.done && end.status == "cancelled"
      && end.error == Some(if reason == "" then "Verification cancelled" else reason)
      && (reason != "" ==> end.detail == reason)
  {
    hide Prepare, Run, Step, Called, Emitted, Payloads, Watched;
    var wakes, m := Wakes(initial, inputs), Prepare(setup, target);
    var before := Feed(m, wakes[..n], 0, target);
    var reason := Called(before.stage, wakes[n]).value;
    RunIsFed(setup, initial, inputs, target);
    assert wakes[..|wakes|] == wakes;
    FeedLast(m, wakes, n + 1, target);
    CalledOff(before, wakes[n], target);
    FeedSplit(m, wakes, 0, n + 1, target);
    assert wakes[..n + 1][..n] == wakes[..n];
    CalledMeansRunning(before, wakes[n]);
    FeedStays(Step(before, wakes[n], target), wakes, n + 1, target);
    CancelRecorded(lines, reason);
  }

  lemma CalledMeansRunning(m: Machine, i: Input)
    requires Called(m.stage, i).Some?
    ensures !m.stage.Exited?
  {
  }

  // ---- What each wake-up does and says ----

  /** Commands: a confirmation or rejection is for emoji being shown; otherwise a rejection cancels, a cancel
      always does, and a confirmation does nothing. A call that fails ends the process unreported. */
  lemma CommandsDo(m: Machine, c: Command, works: bool, target: string)
    requires !m.stage.Exited?
    ensures var after := Step(m, Command(c, works), target);
            var asked := m.stage == Comparing(true);
      if c.Confirm? && !asked then after == m
      else
        && |after.trace| > |m.trace| && m.trace == after.trace[..|m.trace|]
        && after.trace[|m.trace|] == (if m.stage.Requesting? then CancelsRequest
                                      else if c.Cancel? || !asked then CancelsSas
                                      else if c.Confirm? then Confirms else Mismatches)
        && (if works then |after.trace| == |m.trace| + 2 && after.trace[|m.trace| + 1].Emit?
                          && after.stage == (if m.stage.Requesting? then Requesting else Comparing(false))
            else |after.trace| == |m.trace| + 1 && after.stage == Exited(false))
  {
  }

  /** Once the request is accepted the process says so and starts emoji verification; if that fails it exits,
      and if there is nothing to start it goes on waiting. */
  lemma AcceptedStarts(m: Machine, other: string, start: Start, target: string)
    requires m.stage.Requesting?
    ensures var after := Step(m, RequestChange(Ready(other, start)), target);
      && m.trace <= after.trace && |after.trace| >= |m.trace| + 2
      && after.trace[|m.trace|].Emit? && after.trace[|m.trace| + 1] == StartsSas
      && (start.StartFails? ==> after.stage == Exited(false))
      && (start.NoSas? ==> after.stage == Requesting)
      && (start.Started? && !(start.now.SasDone? || start.now.SasCancelled?) ==> after.stage.Comparing?)
  {
    hide ReadyDetail;
  }

  lemma SasReports(m: Machine, s: SasState)
    ensures Reports(m, OnSas(m, s))
  {
  }

  /** No other state the SDK comes to makes it do anything but report. */
  lemma OtherwiseReports(m: Machine, i: Input, target: string)
    requires !i.Command? && !(m.stage.Requesting? && i.RequestChange? && i.request.Ready?)
    ensures var after := Step(m, i, target);
      m.trace <= after.trace && forall k :: |m.trace| <= k < |after.trace| ==> after.trace[k].Emit?
  {
    hide OnSas;
    match i
    case SasChange(s) => SasReports(m, s);
    case RequestChange(Transitioned(Some(now))) =>
      SasReports(m.Say(Plain("sas_started", "waiting_for_emoji")).To(Comparing(false)), now);
    case _ =>
  }

  /** The stage a process is in decides what it listens to: while it requests, to the request; while it
      compares, to the emoji verification. Nothing else moves it, but for commands and the end of its stream. */
  lemma ListensTo(m: Machine, i: Input, target: string)
    ensures m.stage.Exited? || i.CommandsClosed? ==> Step(m, i, target) == m
    ensures (m.stage.Requesting? && i.SasChange?) || (m.stage.Comparing? && i.RequestChange?)
      ==> Step(m, i, target) == m
    ensures i.StreamEnd? && !m.stage.Exited? ==> Step(m, i, target) == m.(stage := Exited(false))
  {
  }

  /** The status an input leads to, if the process hears it. */
  function StatusOf(s: SasState): string {
    match s
    case SasCreated | SasStarted | SasAccepted => "waiting_for_emoji"
    case KeysExchanged(_, _) => "waiting_for_confirm"
    case SasConfirmed => "confirming"
    case SasDone => "done"
    case SasCancelled(_) => "cancelled"
  }

  function StatusAfter(m: Machine, i: Input): Option<string> {
    match m.stage
    case Exited(_) => None
    case Comparing(awaiting) =>
      (match i
       case SasChange(s) => Some(StatusOf(s))
       case Command(c, true) =>
         if c.Cancel? || (c.Reject? && !awaiting) then Some("cancelled")
         else if !awaiting then None else if c.Confirm? then Some("confirming") else Some("rejected")
       case _ => None)
    case Requesting =>
      (match i
       case RequestChange(Created) => Some("waiting_for_accept")
       case RequestChange(Requested(_)) => Some("waiting_for_accept")
       case RequestChange(Ready(_, Started(now))) => Some(StatusOf(now))
       case RequestChange(Ready(_, _)) => Some("waiting_for_emoji")
       case RequestChange(Transitioned(Some(now))) => Some(StatusOf(now))
       case RequestChange(RequestDone) => Some("done")
       case RequestChange(RequestCancelled(_)) => Some("cancelled")
       case Command(c, true) => if c.Confirm? then None else Some("cancelled")
       case _ => None)
  }

  function LastReport(m: Machine): Payload
    requires Emitted(m.trace) != []
  {
    Emitted(m.trace)[|Emitted(m.trace)| - 1]
  }

  /** The last report makes the record's status this, whatever it said before. */
  predicate Settles(m: Machine, r: Record, status: string) {
    Emitted(m.trace) != [] && Applied(r, LastReport(m)).status == status
  }

  lemma SaysSettles(m: Machine, p: Payload, next: Stage, r: Record)
    ensures Settles(m.Say(p), r, Applied(r, p).status) && Settles(m.Say(p).To(next), r, Applied(r, p).status)
  {
    hide Applied;
    EmittedSay(m, p);
  }

  lemma DoesSettle(m: Machine, act: Act, next: Stage, r: Record, status: string)
    requires Settles(m, r, status) && !act.Emit?
    ensures Settles(m.Do(act), r, status) && Settles(m.Do(act).To(next), r, status)
  {
    hide Applied;
    EmittedDo(m, act);
  }

  lemma SasSettles(m: Machine, s: SasState, r: Record)
    ensures Settles(OnSas(m, s), r, StatusOf(s))
  {
    hide Settles, Noted;
    match s
    case SasCreated => SaysSettles(m, Plain("sas_created", "waiting_for_emoji"), m.stage, r);
    case SasStarted => SaysSettles(m, Plain("sas_started", "waiting_for_emoji"), m.stage, r);
    case SasAccepted => SaysSettles(m, Plain("sas_accepted", "waiting_for_emoji"), m.stage, r);
    case KeysExchanged(e, d) => SaysSettles(m.To(Comparing(true)), EmojiReady(e, d), m.stage, r);
    case SasConfirmed => SaysSettles(m, Plain("sas_confirmed", "confirming"), m.stage, r);
    case SasDone => SaysSettles(m, Complete("done"), Exited(true), r);
    case SasCancelled(reason) => SaysSettles(m, CancelledFor(reason), Exited(false), r);
  }

  lemma RequestSettles(m: Machine, s: RequestState, target: string, r: Record)
    requires m.stage.Requesting? && StatusAfter(m, RequestChange(s)).Some?
    ensures Settles(OnRequest(m, s, target), r, StatusAfter(m, RequestChange(s)).value)
  {
    hide Settles, Noted, OnSas, ReadyDetail;
    match s
    case Created => SaysSettles(m, Plain("request_pending", "waiting_for_accept"), m.stage, r);
    case Requested(other) => SaysSettles(m, Acknowledged(other), m.stage, r);
    case Ready(other, start) =>
      var p := RequestReady(other, target);
      SaysSettles(m, p, m.stage, r);
      DoesSettle(m.Say(p), StartsSas, Exited(false), r, Applied(r, p).status);
      if start.Started? { SasSettles(m.Say(p).Do(StartsSas).To(Comparing(false)), start.now, r); }
    case Transitioned(Some(now)) =>
      SasSettles(m.Say(Plain("sas_started", "waiting_for_emoji")).To(Comparing(false)), now, r);
    case RequestDone => SaysSettles(m, Complete("done"), Exited(true), r);
    case RequestCancelled(reason) => SaysSettles(m, CancelledFor(reason), Exited(false), r);
    case _ =>
  }

  lemma CommandSettles(m: Machine, c: Command, r: Record)
    requires StatusAfter(m, Command(c, true)).Some?
    ensures Settles(OnCommand(m, c, true), r, StatusAfter(m, Command(c, true)).value)
  {
    hide Settles, Noted;
    var requesting := Plain("request_cancelled_locally", "cancelled");
    SaysSettles(m.Do(CancelsRequest).To(Requesting), requesting, Requesting, r);
    var cancelled := Plain("verification_cancelled_locally", "cancelled");
    SaysSettles(m.Do(CancelsSas).To(Comparing(false)), cancelled, Requesting, r);
    var confirmed := Plain("verification_confirmed", "confirming");
    SaysSettles(m.Do(Confirms).To(Comparing(false)), confirmed, Requesting, r);
    SaysSettles(m.Do(Mismatches).To(Comparing(false)), Plain("verification_rejected", "rejected"), Requesting, r);
  }

  lemma StepSettles(m: Machine, i: Input, target: string, r: Record)
    requires StatusAfter(m, i).Some?
    ensures Settles(Step(m, i, target), r, StatusAfter(m, i).value)
  {
    hide Settles, OnSas, OnRequest, OnCommand;
    match i
    case SasChange(s) => SasSettles(m, s, r);
    case RequestChange(s) => RequestSettles(m, s, target, r);
    case Command(c, _) => CommandSettles(m, c, r);
  }

  /** Whatever else is written, the record is what its last event made of the record before, the log aside. */
  lemma {:induction false} LastApplied(lines: seq<Line>) returns (r: Record)
    requires Payloads(lines) != []
    ensures var end := Applied(r, Payloads(lines)[|Payloads(lines)| - 1]);
      Watched(STARTING, lines) == end.(logs := Watched(STARTING, lines).logs)
  {
    hide Applied, Log;
    var init := lines[..|lines| - 1];
    if lines[|lines| - 1].Text? {
      assert Payloads(lines) == Payloads(init);
      r := LastApplied(init);
    } else {
      r := Watched(STARTING, init);
    }
  }

  /** The user sees where the process is: once all it wrote is read, the status is the one its last step
      led to. */
  lemma StatusFollows(m: Machine, i: Input, target: string, lines: seq<Line>)
    requires StatusAfter(m, i).Some? && Payloads(lines) == Emitted(Step(m, i, target).trace)
    ensures Watched(STARTING, lines).status == StatusAfter(m, i).value
  {
    hide Step, Watched, Applied, StatusAfter, Payloads, Emitted;
    StepSettles(m, i, target, STARTING);
    var r := LastApplied(lines);
    StepSettles(m, i, target, r);
  }

  // ---- The preparation, and the flow it opens ----

  /** Preparing succeeds without a request exactly if the device turns out to be verified already, and leads to
      a request exactly if it is not and one could be made; any call that fails before ends the process. */
  lemma PreparationEnds(setup: Setup, target: string)
    ensures var stage := Prepare(setup, target).stage;
            var ready := setup.clientBuilt && setup.recovery.Some? && setup.roomKeys.Some? && setup.synced;
      && (stage == Exited(true) <==> ready && setup.verified == Some(true))
      && (stage == Requesting <==> ready && setup.verified == Some(false) && setup.flowId.Some?)
      && (stage == Requesting || stage.Exited?)
  {
  }

  /** Every event reported names this flow or none. */
  predicate FlowsAre(ps: seq<Payload>, flow: string) {
    forall i :: 0 <= i < |ps| ==> ps[i].flowId.None? || ps[i].flowId == Some(flow)
  }

  predicate NamesFlow(ps: seq<Payload>, flow: string) {
    exists i :: 0 <= i < |ps| && ps[i].flowId == Some(flow)
  }

  predicate HasFlow(m: Machine, flow: string) {
    FlowsAre(Emitted(m.trace), flow) && NamesFlow(Emitted(m.trace), flow)
  }

  lemma FlowSay(m: Machine, p: Payload, next: Stage, flow: string)
    requires HasFlow(m, flow) && p.flowId.None?
    ensures HasFlow(m.Say(p), flow) && HasFlow(m.Say(p).To(next), flow)
  {
    hide Emitted;
    EmittedSay(m, p);
    var ps := Emitted(m.trace);
    var i :| 0 <= i < |ps| && ps[i].flowId == Some(flow);
    assert (ps + [p])[i] == ps[i];
  }

  lemma FlowDo(m: Machine, act: Act, next: Stage, flow: string)
    requires HasFlow(m, flow) && !act.Emit?
    ensures HasFlow(m.Do(act), flow) && HasFlow(m.Do(act).To(next), flow)
  {
    EmittedDo(m, act);
  }

  lemma FlowOnSas(m: Machine, s: SasState, flow: string)
    requires HasFlow(m, flow)
    ensures HasFlow(OnSas(m, s), flow)
  {
    hide HasFlow;
    match s
    case SasCreated => FlowSay(m, Plain("sas_created", "waiting_for_emoji"), m.stage, flow);
    case SasStarted => FlowSay(m, Plain("sas_started", "waiting_for_emoji"), m.stage, flow);
    case SasAccepted => FlowSay(m, Plain("sas_accepted", "waiting_for_emoji"), m.stage, flow);
    case KeysExchanged(e, d) =>
      FlowSay(m, EmojiReady(e, d), Comparing(true), flow);
      assert m.To(Comparing(true)).Say(EmojiReady(e, d)) == m.Say(EmojiReady(e, d)).To(Comparing(true));
    case SasConfirmed => FlowSay(m, Plain("sas_confirmed", "confirming"), m.stage, flow);
    case SasDone => FlowSay(m, Complete("done"), Exited(true), flow);
    case SasCancelled(reason) => FlowSay(m, CancelledFor(reason), Exited(false), flow);
  }

  lemma FlowOnRequest(m: Machine, s: RequestState, target: string, flow: string)
    requires HasFlow(m, flow)
    ensures HasFlow(OnRequest(m, s, target), flow)
  {
    hide HasFlow, OnSas, ReadyDetail;
    match s
    case Created => FlowSay(m, Plain("request_pending", "waiting_for_accept"), m.stage, flow);
    case Requested(other) => FlowSay(m, Acknowledged(other), m.stage, flow);
    case Ready(other, start) =>
      var p := RequestReady(other, target);
      FlowSay(m, p, m.stage, flow);
      FlowDo(m.Say(p), StartsSas, Exited(false), flow);
      FlowDo(m.Say(p), StartsSas, Comparing(false), flow);
      if start.Started? { FlowOnSas(m.Say(p).Do(StartsSas).To(Comparing(false)), start.now, flow); }
    case Transitioned(None) =>
    case Transitioned(Some(now)) =>
      var p := Plain("sas_started", "waiting_for_emoji");
      FlowSay(m, p, Comparing(false), flow);
      FlowOnSas(m.Say(p).To(Comparing(false)), now, flow);
    case RequestDone => FlowSay(m, Complete("done"), Exited(true), flow);
    case RequestCancelled(reason) => FlowSay(m, CancelledFor(reason), Exited(false), flow);
  }

  lemma FlowDecide(m: Machine, act: Act, works: bool, next: Stage, report: Payload, flow: string)
    requires HasFlow(m, flow) && !act.Emit? && report.flowId.None?
    ensures HasFlow(Decide(m, act, works, next, report), flow)
  {
    hide HasFlow;
    FlowDo(m, act, next, flow);
    FlowDo(m, act, Exited(false), flow);
    FlowSay(m.Do(act).To(next), report, next, flow);
  }

  lemma FlowStep(m: Machine, i: Input, target: string, flow: string)
    requires HasFlow(m, flow)
    ensures HasFlow(Step(m, i, target), flow)
  {
    hide HasFlow, OnSas, OnRequest, Decide;
    match i
    case Command(c, works) =>
      FlowDecide(m, CancelsRequest, works, Requesting, Plain("request_cancelled_locally", "cancelled"), flow);
      FlowDecide(m, CancelsSas, works, Comparing(false), Plain("verification_cancelled_locally", "cancelled"), flow);
      FlowDecide(m, Confirms, works, Comparing(false), Plain("verification_confirmed", "confirming"), flow);
      FlowDecide(m, Mismatches, works, Comparing(false), Plain("verification_rejected", "rejected"), flow);
    case CommandsClosed =>
    case RequestChange(s) => FlowOnRequest(m, s, target, flow);
    case SasChange(s) => FlowOnSas(m, s, flow);
    case StreamEnd => FlowTo(m, Exited(false), flow);
  }

  lemma FlowTo(m: Machine, next: Stage, flow: string)
    requires HasFlow(m, flow)
    ensures HasFlow(m.To(next), flow)
  {
  }

  lemma {:induction false} FlowFeed(m: Machine, inputs: seq<Input>, from: nat, target: string, flow: string)
    requires from <= |inputs| && HasFlow(m, flow)
    ensures HasFlow(Feed(m, inputs, from, target), flow)
    decreases |inputs| - from
  {
    hide HasFlow, Step;
    if from < |inputs| && !m.stage.Exited? {
      FlowStep(m, inputs[from], target, flow);
      FlowFeed(Step(m, inputs[from], target), inputs, from + 1, target, flow);
    }
  }

  lemma FlowOpened(setup: Setup, target: string)
    requires Prepare(setup, target).stage.Requesting?
    ensures setup.flowId.Some? && HasFlow(Prepare(setup, target), setup.flowId.value)
  {
    var m := Machine(Requesting, []);
    var p1 := Plain("secret_recovery", setup.recovery.value.status).(detail := setup.recovery.value.detail);
    var p2 := Plain("room_key_import", setup.roomKeys.value.status).(detail := setup.roomKeys.value.detail);
    var p3 := Payload("device_found", None, None, None, None, None, None);
    EmittedSay(m, p1);
    EmittedSay(m.Say(p1), p2);
    EmittedSay(m.Say(p1).Say(p2), p3);
    EmittedSay(m.Say(p1).Say(p2).Say(p3), RequestCreated(setup.flowId, target));
    assert Emitted([]) == [];
    assert Emitted(Prepare(setup, target).trace) == [p1, p2, p3, RequestCreated(setup.flowId, target)];
    assert [p1, p2, p3, RequestCreated(setup.flowId, target)][3].flowId == setup.flowId;
  }

  lemma FlowApplied(r: Record, p: Payload)
    ensures Applied(r, p).flowId == if p.flowId.GetOr("") != "" then p.flowId else r.flowId
  {
  }

  lemma {:induction false} FlowRecorded(lines: seq<Line>, flow: string)
    requires FlowsAre(Payloads(lines), flow) && flow != ""
    ensures Watched(STARTING, lines).flowId == if NamesFlow(Payloads(lines), flow) then Some(flow) else None
  {
    hide Log, Applied;
    if lines != [] {
      var init, last := lines[..|lines| - 1], lines[|lines| - 1];
      var before, ps := Payloads(init), Payloads(lines);
      assert forall i :: 0 <= i < |before| ==> ps[i] == before[i];
      FlowRecorded(init, flow);
      if last.Json? {
        assert ps[|ps| - 1] == last.payload;
        FlowApplied(Watched(STARTING, init), last.payload);
      }
      if i :| 0 <= i < |before| && before[i].flowId == Some(flow) { assert ps[i].flowId == Some(flow); }
    } else {
      assert Payloads([]) == [];
    }
  }

  /** Once a request is made, an up-to-date attempt names its flow, whatever happens next. */
  lemma AttemptNamesFlow(setup: Setup, initial: RequestState, inputs: seq<Input>, target: string, lines: seq<Line>)
    requires Prepare(setup, target).stage.Requesting? && setup.flowId.Some? && setup.flowId.value != ""
    requires Payloads(lines) == Emitted(Run(setup, initial, inputs, target).trace)
    ensures Watched(STARTING, lines).flowId == setup.flowId
  {
    hide Prepare, OnRequest, Feed, Emitted, Payloads, Watched, FlowsAre, NamesFlow;
    var flow := setup.flowId.value;
    FlowOpened(setup, target);
    FlowOnRequest(Prepare(setup, target), initial, target, flow);
    FlowFeed(OnRequest(Prepare(setup, target), initial, target), inputs, 0, target, flow);
    FlowRecorded(lines, flow);
  }

  // ---- What the attempt says in words ----

  /** An up-to-date attempt says what was last reported: who took up the request, that keys are to be compared,
      or how it ended. */
  function WordsAfter(m: Machine, i: Input, target: string): Option<string> {
    match m.stage
    case Exited(_) => None
    case Comparing(_) =>
      if i == SasChange(SasDone) then Some("done")
      else if i.SasChange? && i.sas.KeysExchanged? then
        Some("Compare the emojis in your trusted Matrix client, then confirm or reject them here.")
      else None
    case Requesting =>
      (match i
       case RequestChange(Requested(other)) => Some("Verification request acknowledged by " + other + ".")
       case RequestChange(Ready(other, start)) =>
         if start.Started? then None
         else if other == target then Some(target + " accepted the request. Starting emoji verification…")
         else Some(other + " accepted the request instead of " + target + ". Continuing with the accepting device.")
       case RequestChange(RequestDone) => Some("done")
       case _ => None)
  }

  predicate Words(m: Machine, r: Record, detail: string) {
    Emitted(m.trace) != [] && Applied(r, LastReport(m)).detail == detail
  }

  lemma SaysWords(m: Machine, p: Payload, next: Stage, r: Record)
    ensures Words(m.Say(p), r, Applied(r, p).detail) && Words(m.Say(p).To(next), r, Applied(r, p).detail)
  {
    hide Applied;
    EmittedSay(m, p);
  }

  lemma DoesWords(m: Machine, act: Act, next: Stage, r: Record, detail: string)
    requires Words(m, r, detail) && !act.Emit?
    ensures Words(m.Do(act), r, detail) && Words(m.Do(act).To(next), r, detail)
  {
    hide Applied;
    EmittedDo(m, act);
  }

  lemma ReadyWords(m: Machine, other: string, target: string, start: Start, r: Record)
    requires !start.Started?
    ensures Words(OnRequest(m, Ready(other, start), target), r,
                  if other == target then target + " accepted the request. Starting emoji verification…"
                  else other + " accepted the request instead of " + target
                       + ". Continuing with the accepting device.")
  {
    hide Words;
    var p := RequestReady(other, target);
    SaysWords(m, p, m.stage, r);
    DoesWords(m.Say(p), StartsSas, Exited(false), r, Applied(r, p).detail);
  }

  lemma AcknowledgedWords(r: Record, other: string)
    ensures Applied(r, Acknowledged(other)).detail == "Verification request acknowledged by " + other + "."
  {
  }

  lemma PromptWords(r: Record, emojis: Option<seq<Emoji>>, decimals: seq<int>)
    ensures Applied(r, EmojiReady(emojis, decimals)).detail
      == "Compare the emojis in your trusted Matrix client, then confirm or reject them here."
  {
  }

  lemma DoneWords(m: Machine, r: Record)
    ensures Words(m.Say(Complete("done")).To(Exited(true)), r, "done")
  {
    hide Words, Applied;
    CompletionApplied(r, Complete("done"));
    SaysWords(m, Complete("done"), Exited(true), r);
  }

  lemma ComparingWords(m: Machine, s: SasState, target: string, r: Record)
    requires m.stage.Comparing? && WordsAfter(m, SasChange(s), target).Some?
    ensures Words(OnSas(m, s), r, WordsAfter(m, SasChange(s), target).value)
  {
    hide Words, Applied;
    if s.KeysExchanged? {
      PromptWords(r, s.emojis, s.decimals);
      SaysWords(m.To(Comparing(true)), EmojiReady(s.emojis, s.decimals), m.stage, r);
    } else {
      DoneWords(m, r);
    }
  }

  lemma RequestingWords(m: Machine, s: RequestState, target: string, r: Record)
    requires m.stage.Requesting? && WordsAfter(m, RequestChange(s), target).Some?
    ensures Words(OnRequest(m, s, target), r, WordsAfter(m, RequestChange(s), target).value)
  {
    hide Words, Applied, ReadyDetail, OnSas;
    match s
    case Requested(other) =>
      AcknowledgedWords(r, other);
      SaysWords(m, Acknowledged(other), m.stage, r);
    case Ready(other, start) => ReadyWords(m, other, target, start, r);
    case RequestDone => DoneWords(m, r);
    case _ =>
  }

  lemma StepWords(m: Machine, i: Input, target: string, r: Record)
    requires WordsAfter(m, i, target).Some?
    ensures Words(Step(m, i, target), r, WordsAfter(m, i, target).value)
  {
    hide Words, OnSas, OnRequest;
    match i
    case SasChange(s) => ComparingWords(m, s, target, r);
    case RequestChange(s) => RequestingWords(m, s, target, r);
    case _ =>
  }

  lemma WordsFollow(m: Machine, i: Input, target: string, lines: seq<Line>)
    requires WordsAfter(m, i, target).Some? && Payloads(lines) == Emitted(Step(m, i, target).trace)
    ensures Watched(STARTING, lines).detail == WordsAfter(m, i, target).value
  {
    hide Step, Watched, Applied, WordsAfter, Payloads, Emitted;
    StepWords(m, i, target, STARTING);
    var r := LastApplied(lines);
    StepWords(m, i, target, r);
  }

  lemma PreparedLast(setup: Setup, target: string)
    requires Prepare(setup, target).stage == Requesting || Prepare(setup, target).stage == Exited(true)
    ensures var m := Prepare(setup, target);
      Emitted(m.trace) != [] && LastReport(m) == if m.stage == Requesting then RequestCreated(setup.flowId, target)
                                                 else Complete("already_verified")
  {
    hide Emitted;
    var m := Machine(Requesting, []);
    var m1 := m.Say(Plain("secret_recovery", setup.recovery.value.status).(detail := setup.recovery.value.detail));
    var m2 := m1.Say(Plain("room_key_import", setup.roomKeys.value.status).(detail := setup.roomKeys.value.detail));
    var m3 := m2.Say(Payload("device_found", None, None, None, None, None, None));
    EmittedSay(m3, Complete("already_verified"));
    EmittedSay(m3, RequestCreated(setup.flowId, target));
  }

  /** Once prepared, the attempt says where the request went, or that the device was verified already. */
  lemma PreparedSays(setup: Setup, target: string, lines: seq<Line>)
    requires Prepare(setup, target).stage == Requesting || Prepare(setup, target).stage == Exited(true)
    requires Payloads(lines) == Emitted(Prepare(setup, target).trace)
    ensures var m, r := Prepare(setup, target), Watched(STARTING, lines);
      && (m.stage == Exited(true) ==> r.status == "done" && r.detail == "already_verified" && r.error.None?)
      && (m.stage == Requesting ==>
            && r.status == "waiting_for_accept"
            && r.detail == "Verification request sent to your other Matrix devices. Accept it on " + target + ".")
  {
    hide Watched, Prepare, Emitted, Payloads;
    PreparedLast(setup, target);
    var r := LastApplied(lines);
  }

  /** The latest event the attempt knows of is the last one that was read. */
  lemma LatestIsLast(lines: seq<Line>)
    requires Payloads(lines) != [] && Payloads(lines)[|Payloads(lines)| - 1].event != ""
    ensures Watched(STARTING, lines).latestEvent == Some(Payloads(lines)[|Payloads(lines)| - 1].event)
  {
    var r := LastApplied(lines);
  }

  // ---- The log ----

  /** The newest eighty. */
  function Newest80(log: seq<string>): seq<string> {
    if |log| <= 80 then log else log[|log| - 80..]
  }

  /** What came on the process's output that was no event. */
  function Chatter(lines: seq<Line>): seq<string> {
    if lines == [] then [] else
    var last := lines[|lines| - 1];
    Chatter(lines[..|lines| - 1]) + if last.Text? && last.text != "" then ["stdout: " + last.text] else []
  }

  function Complaints(stderr: seq<string>): seq<string> {
    seq(|stderr|, i requires 0 <= i < |stderr| => "stderr: " + stderr[i])
  }

  lemma NewestGrows(log: seq<string>, entry: string)
    requires entry != ""
    ensures Log(Newest80(log), entry) == Newest80(log + [entry])
  {
    var all := Newest80(log) + [entry];
    if |log| > 80 { assert all[1..] == (log + [entry])[|log| - 79..]; }
    if |log| == 80 { assert all[1..] == (log + [entry])[1..]; }
  }

  lemma AppliedLogs(r: Record, p: Payload)
    ensures Applied(r, p).logs == r.logs
  {
  }

  lemma {:induction false} WatchedLogs(lines: seq<Line>)
    ensures Watched(STARTING, lines).logs == Newest80(Chatter(lines))
  {
    hide Applied, Log, Newest80;
    if lines != [] {
      var init, last := lines[..|lines| - 1], lines[|lines| - 1];
      WatchedLogs(init);
      assert Chatter(init) + [] == Chatter(init);
      match last
      case Json(p) => AppliedLogs(Watched(STARTING, init), p);
      case Text(t) => if t != "" { NewestGrows(Chatter(init), "stdout: " + t); }
    } else {
      assert Newest80([]) == [] by { NoNewest(); }
    }
  }

  lemma NoNewest()
    ensures Newest80([]) == []
  {
  }

  lemma {:induction false} ComplaintsLogged(log: seq<string>, stderr: seq<string>)
    ensures LogAll(Newest80(log), stderr) == Newest80(log + Complaints(stderr))
  {
    hide Log, Newest80;
    if stderr == [] {
      assert log + Complaints(stderr) == log;
    } else {
      var init, last := stderr[..|stderr| - 1], "stderr: " + stderr[|stderr| - 1];
      ComplaintsLogged(log, init);
      NewestGrows(log + Complaints(init), last);
      assert log + Complaints(init) + [last] == log + Complaints(stderr);
    }
  }

  /** When all is over the log holds the newest eighty of the lines that were no event, in order, what came on
      the error output after what came on the other. */
  lemma LogIsNewest(lines: seq<Line>, code: int, stderr: seq<string>)
    ensures Finished(Watched(STARTING, lines), code, stderr).logs == Newest80(Chatter(lines) + Complaints(stderr))
  {
    hide Watched, LogAll, FailureText, Newest80;
    WatchedLogs(lines);
    ComplaintsLogged(Chatter(lines), stderr);
  }

  // ---- A run that fails without saying so ----

  /** A process that fails without having reported a cancel leaves an attempt that failed, with what it wrote to
      its error output as error and detail, six hundred characters of it at most. */
  lemma FailureTellsWhy(setup: Setup, initial: RequestState, inputs: seq<Input>, target: string, lines: seq<Line>,
                        code: int, stderr: seq<string>)
    requires var m := Run(setup, initial, inputs, target);
      m.stage == Exited(false) && code != 0 && Payloads(lines) == Emitted(m.trace)
    requires !CancelReported(Payloads(lines))
    ensures var end := Finished(Watched(STARTING, lines), code, stderr);
      && end.done && end.status == "failed" && end.error == Some(end.detail)
      && (JoinLines(stderr) == "" ==> end.detail == "Matrix verification failed")
      && (JoinLines(stderr) != "" ==>
            end.detail == if |JoinLines(stderr)| <= 600 then JoinLines(stderr) else JoinLines(stderr)[..600])
  {
    hide Run, JoinLines, LogAll, Watched, Emitted, Payloads;
    EveryRunSound(setup, initial, inputs, target);
    NotDoneYet(Run(setup, initial, inputs, target), lines);
  }

  lemma NotDoneYet(m: Machine, lines: seq<Line>)
    requires CompleteIsLast(m) && m.stage == Exited(false) && Payloads(lines) == Emitted(m.trace)
    requires !CancelReported(Payloads(lines))
    ensures !Watched(STARTING, lines).done
  {
    hide Watched, Emitted;
    forall k | 0 <= k < |Emitted(m.trace)| ensures Emitted(m.trace)[k].event != "verification_complete" {
      var i := EmittedMember(m.trace, Emitted(m.trace)[k]);
      assert !IsComplete(m.trace[i]);
    }
    OpenWhileUnsettled(lines);
  }

  lemma {:induction false} OpenWhileUnsettled(lines: seq<Line>)
    requires !CancelReported(Payloads(lines))
    requires forall k :: 0 <= k < |Payloads(lines)| ==> Payloads(lines)[k].event != "verification_complete"
    ensures !Watched(STARTING, lines).done
  {
    hide Noted, Log, Cancels;
    if lines != [] {
      var init, last := lines[..|lines| - 1], lines[|lines| - 1];
      var before, ps := Payloads(init), Payloads(lines);
      assert forall i :: 0 <= i < |before| ==> ps[i] == before[i];
      if last.Json? {
        CancelReportedGrows(before, last.payload);
        assert ps[|before|] == last.payload;
        StaysOpen(Watched(STARTING, init), last.payload);
      }
      OpenWhileUnsettled(init);
    }
  }

  lemma StaysOpen(r: Record, p: Payload)
    requires p.event != "verification_complete" && !Cancels(p)
    ensures Applied(r, p).done == r.done
  {
  }

  lemma {:induction false} JoinIs(a: seq<string>, b: seq<string>)
    requires a != [] && b != []
    ensures JoinLines(a + b) == JoinLines(a) + "\n" + JoinLines(b)
  {
    if |a| == 1 {
      assert (a + b)[1..] == b;
    } else {
      JoinIs(a[1..], b);
      assert (a + b)[1..] == a[1..] + b;
    }
  }

  /** A process that exits well without a word on how it went leaves an attempt that is done all the same. */
  lemma QuietSuccess(r: Record, stderr: seq<string>)
    requires !r.done
    ensures var end := Finished(r, 0, stderr);
      && end.done && end.status == "done" && end.error == r.error
      && end.detail == (if r.detail == "" then "Verification completed." else r.detail)
  {
  }

  /** Completion is told in the words of its status, which are the attempt's. */
  lemma CompletionApplied(r: Record, p: Payload)
    requires p.event == "verification_complete"
    ensures var end := Applied(r, p);
      && end.status == "done" && end.done && end.error.None?
      && end.detail == (if p.status in {None, Some("")} then "Verification completed." else p.status.value)
  {
  }

  /** Until the first event is read the attempt is starting, and says so. */
  lemma {:induction false} BeforeAnyEvent(lines: seq<Line>)
    requires Payloads(lines) == []
    ensures var r := Watched(STARTING, lines);
      && r.status == "starting" && r.detail == "Starting Matrix device verification…" && !r.done && r.error.None?
      && r.emojis == [] && r.decimals == [] && r.flowId.None? && r.latestEvent.None?
  {
    if lines != [] { BeforeAnyEvent(lines[..|lines| - 1]); }
  }

  // ---- The words of a decision ----

  /** The bridge sends five words on; to the process "yes" is a confirmation and "no" a rejection, and it would
      also take "mismatch" for one. Of any other word the bridge says that it is none, and the process makes
      nothing. */
  lemma DecisionWords(r: Record, word: string)
    ensures !r.done ==> ReplyTo(r, word, false) == NotRunning
    ensures !r.done ==>
      ReplyTo(r, word, true) == if word in ["yes", "confirm", "no", "reject", "cancel"] then Sent else BadDecision
    ensures ParseCommand(word) == Some(Confirm) <==> word in ["yes", "confirm"]
    ensures ParseCommand(word) == Some(Reject) <==> word in ["no", "reject", "mismatch"]
    ensures ParseCommand(word) == Some(Cancel) <==> word == "cancel"
  {
  }
}
