/** What becomes of a verification the user cancelled, and which decisions still get through. */
module VerificationCancel {
  import opened Options
  import opened VerificationDriver
  import opened VerificationMonitor
  import opened VerificationAgreement
  import opened VerificationPrompt

  // ---- Cancel events of a process still running ----

  function LocalCancel(request: bool): Payload {
    Plain(if request then "request_cancelled_locally" else "verification_cancelled_locally", "cancelled")
  }

  predicate Cancels(p: Payload) {
    p.event in CANCEL_EVENTS
  }

  predicate Local(p: Payload) {
    p == LocalCancel(true) || p == LocalCancel(false)
  }

  /** While the process runs, every cancel event it has reported is one of its own making. */
  predicate OnlyLocal(m: Machine) {
    !m.stage.Exited? && forall i ::
      0 <= i < |m.trace| && m.trace[i].Emit? && Cancels(m.trace[i].payload) ==> Local(m.trace[i].payload)
  }

  lemma OnlyLocalOnSas(m: Machine, s: SasState)
    requires OnlyLocal(m)
    ensures OnSas(m, s).stage.Exited? || OnlyLocal(OnSas(m, s))
  {
  }

  lemma OnlyLocalOnRequest(m: Machine, s: RequestState, target: string)
    requires OnlyLocal(m)
    ensures OnRequest(m, s, target).stage.Exited? || OnlyLocal(OnRequest(m, s, target))
  {
    hide OnSas, ReadyDetail;
    match s
    case Ready(other, Started(now)) =>
      var p := RequestReady(other, target);
      OnlyLocalOnSas(m.Say(p).Do(StartsSas).To(Comparing(false)), now);
    case Transitioned(Some(now)) =>
      OnlyLocalOnSas(m.Say(Plain("sas_started", "waiting_for_emoji")).To(Comparing(false)), now);
    case _ =>
  }

  lemma OnlyLocalStep(m: Machine, i: Input, target: string)
    requires OnlyLocal(m)
    ensures Step(m, i, target).stage.Exited? || OnlyLocal(Step(m, i, target))
  {
    hide OnSas, OnRequest;
    match i
    case RequestChange(s) => OnlyLocalOnRequest(m, s, target);
    case SasChange(s) => OnlyLocalOnSas(m, s);
    case _ =>
  }

  lemma {:induction false} OnlyLocalFeed(m: Machine, inputs: seq<Input>, from: nat, target: string)
    requires from <= |inputs| && OnlyLocal(m)
    ensures Feed(m, inputs, from, target).stage.Exited? || OnlyLocal(Feed(m, inputs, from, target))
    decreases |inputs| - from
  {
    hide OnlyLocal, Step;
    if from < |inputs| && !m.stage.Exited? {
      OnlyLocalStep(m, inputs[from], target);
      if !Step(m, inputs[from], target).stage.Exited? {
        OnlyLocalFeed(Step(m, inputs[from], target), inputs, from + 1, target);
      }
    }
  }

  lemma OnlyLocalSay(m: Machine, p: Payload)
    requires OnlyLocal(m) && !Cancels(p)
    ensures OnlyLocal(m.Say(p))
  {
  }

  lemma SetupIsNoCancel(p: Payload)
    requires p.event in {"secret_recovery", "room_key_import", "device_found", "request_created"}
    ensures !Cancels(p)
  {
  }

  lemma OnlyLocalPrepare(setup: Setup, target: string)
    ensures Prepare(setup, target).stage.Exited? || OnlyLocal(Prepare(setup, target))
  {
    if !Prepare(setup, target).stage.Exited? {
      var m := Machine(Requesting, []);
      NothingReported(m);
      var p1 := Plain("secret_recovery", setup.recovery.value.status).(detail := setup.recovery.value.detail);
      var p2 := Plain("room_key_import", setup.roomKeys.value.status).(detail := setup.roomKeys.value.detail);
      var p3 := Payload("device_found", None, None, None, None, None, None);
      var p4 := RequestCreated(setup.flowId, target);
      SetupIsNoCancel(p1);
      SetupIsNoCancel(p2);
      SetupIsNoCancel(p3);
      SetupIsNoCancel(p4);
      hide OnlyLocal, Cancels, RequestCreated;
      OnlyLocalSay(m, p1);
      OnlyLocalSay(m.Say(p1), p2);
      OnlyLocalSay(m.Say(p1).Say(p2), p3);
      OnlyLocalSay(m.Say(p1).Say(p2).Say(p3), p4);
    }
  }

  lemma NothingReported(m: Machine)
    requires m == Machine(Requesting, [])
    ensures OnlyLocal(m)
  {
  }

  lemma RunOnlyLocal(setup: Setup, initial: RequestState, inputs: seq<Input>, target: string)
    ensures var m := Run(setup, initial, inputs, target); m.stage.Exited? || OnlyLocal(m)
  {
    hide OnlyLocal, OnRequest, Feed, Prepare;
    OnlyLocalPrepare(setup, target);
    var m := Prepare(setup, target);
    if !m.stage.Exited? {
      OnlyLocalOnRequest(m, initial, target);
      var first := OnRequest(m, initial, target);
      if first.stage.Exited? { FeedStays(first, inputs, 0, target); } else { OnlyLocalFeed(first, inputs, 0, target); }
    }
  }

  lemma FeedStays(m: Machine, inputs: seq<Input>, from: nat, target: string)
    requires from <= |inputs| && m.stage.Exited?
    ensures Feed(m, inputs, from, target) == m
  {
  }

  // ---- What the record says meanwhile ----

  predicate CancelReported(ps: seq<Payload>) {
    exists i :: 0 <= i < |ps| && Cancels(ps[i])
  }

  lemma {:induction false} EmittedMember(trace: seq<Act>, p: Payload) returns (i: nat)
    requires p in Emitted(trace)
    ensures i < |trace| && trace[i] == Emit(p)
  {
    var init := trace[..|trace| - 1];
    if p in Emitted(init) {
      i := EmittedMember(init, p);
    } else {
      i := |trace| - 1;
    }
  }

  /** The events reported by a process still running: no completion, and only its own cancels. */
  predicate StillRunning(ps: seq<Payload>) {
    forall i :: 0 <= i < |ps| ==> RunningReport(ps[i])
  }

  predicate RunningReport(p: Payload) {
    p.event != "verification_complete" && (Cancels(p) ==> Local(p)) && Known(p)
  }

  lemma RunningReports(setup: Setup, initial: RequestState, inputs: seq<Input>, target: string)
    requires !Run(setup, initial, inputs, target).stage.Exited?
    ensures StillRunning(Emitted(Run(setup, initial, inputs, target).trace))
  {
    hide Run, Known, Safe, Emitted, Cancels, Local;
    var m := Run(setup, initial, inputs, target);
    EveryRunSound(setup, initial, inputs, target);
    RunOnlyLocal(setup, initial, inputs, target);
    var ps := Emitted(m.trace);
    forall k | 0 <= k < |ps|
      ensures ps[k].event != "verification_complete" && (Cancels(ps[k]) ==> Local(ps[k])) && Known(ps[k])
    {
      var i := EmittedMember(m.trace, ps[k]);
    }
  }

  /** While the process runs, the attempt is finished exactly if a cancel was reported; then its
      error says so, and its status is "cancelled" until something else is reported. */
  lemma {:induction false} FinishedIfCancelled(lines: seq<Line>)
    requires StillRunning(Payloads(lines))
    ensures var r, ps := Watched(STARTING, lines), Payloads(lines);
      && (r.done <==> CancelReported(ps))
      && (r.done ==> r.error == Some("Verification cancelled"))
      && r.status != "done"
      && (ps != [] && Cancels(ps[|ps| - 1]) ==> r.status == "cancelled")
  {
    hide Applied, Local, Known, Cancels;
    if lines == [] {
      assert !CancelReported([]);
    } else {
      var init, last := lines[..|lines| - 1], lines[|lines| - 1];
      var before, ps := Payloads(init), Payloads(lines);
      assert forall i :: 0 <= i < |before| ==> ps[i] == before[i];
      FinishedIfCancelled(init);
      if last.Json? {
        assert ps[|ps| - 1] == last.payload && Known(last.payload);
        AppliedRunning(Watched(STARTING, init), last.payload);
        CancelReportedGrows(before, last.payload);
      }
    }
  }

  lemma CancelReportedGrows(ps: seq<Payload>, p: Payload)
    ensures CancelReported(ps + [p]) <==> CancelReported(ps) || Cancels(p)
  {
    hide Cancels;
    if i :| 0 <= i < |ps| && Cancels(ps[i]) { assert Cancels((ps + [p])[i]); }
    if Cancels(p) { assert Cancels((ps + [p])[|ps|]); }
  }

  lemma AppliedRunning(r: Record, p: Payload)
    requires p.event != "verification_complete" && (Cancels(p) ==> Local(p)) && Known(p) && r.status != "done"
    ensures var after := Applied(r, p);
      && after.status != "done" && (after.done <==> r.done || Cancels(p))
      && (Cancels(p) ==> after.error == Some("Verification cancelled") && after.status == "cancelled")
      && (!Cancels(p) ==> after.error == r.error)
  {
  }

  // ---- When a run succeeds ----

  /** The input is a Done state, heard by the stage that listens for it. */
  predicate SaysDone(m: Machine, i: Input) {
    match m.stage
    case Exited(_) => false
    case Comparing(_) => i == SasChange(SasDone)
    case Requesting =>
      i.RequestChange? && (i.request.RequestDone? || i.request == Transitioned(Some(SasDone))
                           || (i.request.Ready? && i.request.start == Started(SasDone)))
  }

  lemma StepSucceeds(m: Machine, i: Input, target: string)
    requires !m.stage.Exited?
    ensures Step(m, i, target).stage == Exited(true) <==> SaysDone(m, i)
  {
    hide ReadyDetail;
  }

  /** The process is at input `k`, still running, and hears it say Done. */
  predicate HearsDone(m: Machine, inputs: seq<Input>, from: nat, k: int, target: string)
    requires from <= |inputs|
  {
    from <= k < |inputs| && SaysDone(Feed(m, inputs[..k], from, target), inputs[k])
  }

  lemma {:induction false} FeedSplit(m: Machine, inputs: seq<Input>, from: nat, n: nat, target: string)
    requires from <= n <= |inputs|
    ensures Feed(m, inputs, from, target) == Feed(Feed(m, inputs[..n], from, target), inputs, n, target)
    decreases n - from
  {
    hide Step;
    if from < n && !m.stage.Exited? {
      FeedSplit(Step(m, inputs[from], target), inputs, from + 1, n, target);
    }
  }

  /** A run succeeds exactly if it hears a Done. */
  lemma {:induction false} FeedSucceeds(m: Machine, inputs: seq<Input>, from: nat, target: string)
    requires from <= |inputs| && !m.stage.Exited?
    ensures Feed(m, inputs, from, target).stage == Exited(true) <==> exists k :: HearsDone(m, inputs, from, k, target)
    decreases |inputs| - from
  {
    hide Step, SaysDone;
    if from < |inputs| {
      var next := Step(m, inputs[from], target);
      StepSucceeds(m, inputs[from], target);
      assert Feed(m, inputs[..from], from, target) == m;
      var after := from + 1;
      forall k | after <= k < |inputs|
        ensures HearsDone(m, inputs, from, k, target) <==> HearsDone(next, inputs, after, k, target)
      {
        assert inputs[..k][from] == inputs[from];
      }
      if next.stage.Exited? {
        forall k | after <= k < |inputs| ensures !HearsDone(next, inputs, after, k, target) {
          ExitedHearsNothing(next, inputs, after, k, target);
        }
        assert HearsDone(m, inputs, from, from, target) <==> next.stage == Exited(true);
      } else {
        assert !HearsDone(m, inputs, from, from, target);
        FeedSucceeds(next, inputs, after, target);
        if k :| HearsDone(m, inputs, from, k, target) { assert k != from && HearsDone(next, inputs, after, k, target); }
        if k :| HearsDone(next, inputs, after, k, target) { assert HearsDone(m, inputs, from, k, target); }
      }
    }
  }

  lemma ExitedHearsNothing(m: Machine, inputs: seq<Input>, from: nat, k: int, target: string)
    requires from <= |inputs| && m.stage.Exited?
    ensures !HearsDone(m, inputs, from, k, target)
  {
    if from <= k < |inputs| { FeedStays(m, inputs[..k], from, target); }
  }

  // ---- After a cancel ----

  /** The run up to input `k` is still going, and input `k` is a Done its stage listens for. */
  predicate RunHearsDone(setup: Setup, initial: RequestState, inputs: seq<Input>, k: int, target: string) {
    0 <= k < |inputs| && SaysDone(Run(setup, initial, inputs[..k], target), inputs[k])
  }

  lemma RunContinues(setup: Setup, initial: RequestState, inputs: seq<Input>, n: nat, target: string)
    requires n <= |inputs| && !Run(setup, initial, inputs[..n], target).stage.Exited?
    ensures Run(setup, initial, inputs, target) == Feed(Run(setup, initial, inputs[..n], target), inputs, n, target)
  {
    hide Prepare, OnRequest, Feed;
    FeedSplit(OnRequest(Prepare(setup, target), initial, target), inputs, 0, n, target);
  }

  lemma RunSucceeds(setup: Setup, initial: RequestState, inputs: seq<Input>, n: nat, target: string)
    requires n <= |inputs| && !Run(setup, initial, inputs[..n], target).stage.Exited?
    ensures Run(setup, initial, inputs, target).stage == Exited(true)
      <==> exists k :: n <= k && RunHearsDone(setup, initial, inputs, k, target)
  {
    hide Run, Feed, SaysDone;
    var mid := Run(setup, initial, inputs[..n], target);
    RunContinues(setup, initial, inputs, n, target);
    FeedSucceeds(mid, inputs, n, target);
    forall k | n <= k < |inputs|
      ensures HearsDone(mid, inputs, n, k, target) <==> RunHearsDone(setup, initial, inputs, k, target)
    {
      assert inputs[..k][..n] == inputs[..n];
      RunContinues(setup, initial, inputs[..k], n, target);
    }
  }

  /** A cancelled verification may still succeed, and exactly when. Take a process still running
      after its first `n` inputs that reported a cancel of its own. The attempt is finished by then
      and says it was cancelled. Once the process has exited, it ends "done" with no error if and
      only if some later input was a Done state heard by the stage then listening; otherwise it is
      not "done" and keeps an error. */
  lemma CancelledFinishesIf(setup: Setup, initial: RequestState, inputs: seq<Input>, n: nat, target: string,
                            early: seq<Line>, lines: seq<Line>, code: int, stderr: seq<string>)
    requires n <= |inputs|
    requires var mid := Run(setup, initial, inputs[..n], target);
      !mid.stage.Exited? && Payloads(early) == Emitted(mid.trace) && CancelReported(Payloads(early))
    requires var m := Run(setup, initial, inputs, target);
      m.stage.Exited? && (code == 0 <==> m.stage.ok) && Payloads(lines) == Emitted(m.trace)
    ensures var before, end := Watched(STARTING, early), Finished(Watched(STARTING, lines), code, stderr);
      && before.done && before.error == Some("Verification cancelled") && before.status != "done"
      && end.done
      && ((end.status == "done" && end.error.None?)
            <==> exists k :: n <= k && RunHearsDone(setup, initial, inputs, k, target))
      && (end.status == "done" <==> end.error.None?)
  {
    hide Run, RunHearsDone, Emitted, Payloads, Watched, Finished, StillRunning, CancelReported;
    RunningReports(setup, initial, inputs[..n], target);
    FinishedIfCancelled(early);
    RunSucceeds(setup, initial, inputs, n, target);
    MonitorAgrees(setup, initial, inputs, target, lines, code, stderr);
  }

  // ---- Decisions through the bridge ----

  /** A decision as the user makes it: the bridge sends it on or not, and the process reads it. */
  function Delivered(r: Record, m: Machine, decision: string, works: bool, target: string): Machine {
    if ReplyTo(r, decision, !m.stage.Exited?).Sent? && ParseCommand(decision).Some?
    then Step(m, Command(ParseCommand(decision).value, works), target) else m
  }

  /** The SDK call a decision asks for. */
  function ActOf(decision: string): Act
    requires decision in DECISIONS
  {
    if decision == "yes" || decision == "confirm" then Confirms
    else if decision == "cancel" then CancelsSas else Mismatches
  }

  lemma WaitingActs(m: Machine, decision: string, works: bool, target: string)
    requires m.stage == Comparing(true) && decision in DECISIONS
    ensures ParseCommand(decision).Some?
    ensures NewlyJudged(m, Step(m, Command(ParseCommand(decision).value, works), target), ActOf(decision))
  {
    var after := Step(m, Command(ParseCommand(decision).value, works), target);
    assert m.trace <= after.trace && after.trace[|m.trace|..][0] == after.trace[|m.trace|] == ActOf(decision);
  }

  /** While an up-to-date attempt asks the user to compare emoji and the process runs, a decision
      reaches the process and is carried out if and only if no cancel was reported before: the
      bridge refuses decisions on an attempt it holds finished, and a cancelled one is. */
  lemma AskedAndAnswered(setup: Setup, initial: RequestState, inputs: seq<Input>, target: string, lines: seq<Line>,
                         decision: string, works: bool)
    requires var m := Run(setup, initial, inputs, target); Payloads(lines) == Emitted(m.trace) && !m.stage.Exited?
    requires Watched(STARTING, lines).status == "waiting_for_confirm" && decision in DECISIONS
    ensures var m, r := Run(setup, initial, inputs, target), Watched(STARTING, lines);
      NewlyJudged(m, Delivered(r, m, decision, works, target), ActOf(decision)) <==> !CancelReported(Emitted(m.trace))
  {
    hide Run, Step, Emitted, Payloads, Watched, StillRunning, CancelReported, ActOf, ParseCommand;
    var m, r := Run(setup, initial, inputs, target), Watched(STARTING, lines);
    RunningReports(setup, initial, inputs, target);
    FinishedIfCancelled(lines);
    AskedOnlyWhenAwaited(setup, initial, inputs, target, lines);
    WaitingActs(m, decision, works, target);
  }

  /** A prompt, once read, is what the attempt shows. */
  lemma {:induction false} PromptAsks(lines: seq<Line>)
    requires EndsPrompting(Payloads(lines))
    ensures Watched(STARTING, lines).status == "waiting_for_confirm"
  {
    if lines[|lines| - 1].Text? {
      assert Payloads(lines) == Payloads(lines[..|lines| - 1]);
      PromptAsks(lines[..|lines| - 1]);
    }
  }

  /** Such a run: the user cancels before the emoji come, and they come all the same. The attempt
      asks for a comparison, the process waits for it, and the bridge refuses every answer. */
  lemma AsksInVain(setup: Setup, other: string, emojis: Option<seq<Emoji>>, decimals: seq<int>, target: string,
                   lines: seq<Line>, decision: string)
    requires Prepare(setup, target).stage.Requesting?
    requires var inputs := [Command(Cancel, true), SasChange(KeysExchanged(emojis, decimals))];
      Payloads(lines) == Emitted(Run(setup, Ready(other, Started(SasStarted)), inputs, target).trace)
    ensures var inputs := [Command(Cancel, true), SasChange(KeysExchanged(emojis, decimals))];
      var m, r := Run(setup, Ready(other, Started(SasStarted)), inputs, target), Watched(STARTING, lines);
      && m.stage == Comparing(true) && r.status == "waiting_for_confirm" && r.done
      && ReplyTo(r, decision, true) == AlreadyFinished
  {
    hide Prepare, ReadyDetail, Emitted, Payloads, Watched, StillRunning;
    var initial := Ready(other, Started(SasStarted));
    var inputs := [Command(Cancel, true), SasChange(KeysExchanged(emojis, decimals))];
    var m0 := OnRequest(Prepare(setup, target), initial, target);
    var m1 := Step(m0, inputs[0], target);
    var m2 := Step(m1, inputs[1], target);
    assert Feed(m0, inputs, 0, target) == Feed(m1, inputs, 1, target) == Feed(m2, inputs, 2, target) == m2;
    EmittedSay(m0.Do(CancelsSas).To(Comparing(false)), LocalCancel(false));
    EmittedSay(m1.To(Comparing(true)), EmojiReady(emojis, decimals));
    var ps := Payloads(lines);
    assert Cancels(ps[|ps| - 2]);
    PromptAsks(lines);
    RunningReports(setup, initial, inputs, target);
    FinishedIfCancelled(lines);
  }
}
