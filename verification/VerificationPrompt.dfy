/** When the attempt asks the user to compare emoji, the process is waiting for the answer. */
module VerificationPrompt {
  import opened Options
  import opened VerificationDriver
  import opened VerificationMonitor
  import opened VerificationAgreement

  predicate Prompts(p: Payload) {
    p.event == "emoji_ready"
  }

  /** Events whose name alone settles the status. */
  predicate Named(p: Payload) {
    p.event in ACCEPT_EVENTS + EMOJI_EVENTS + CONFIRMING_EVENTS + CANCEL_EVENTS || p.event == "verification_complete"
  }

  predicate Promptless(ps: seq<Payload>, n: nat)
    requires n <= |ps|
  {
    forall j :: 0 <= j < n ==> !Prompts(ps[j])
  }

  /** The event cannot be taken for a prompt, nor leave an earlier prompt standing. */
  predicate Labelled(ps: seq<Payload>, i: nat)
    requires i < |ps|
  {
    || Named(ps[i])
    || (Prompts(ps[i]) && ps[i].emojis.Some? && ps[i].decimals.Some?)
    || (!Prompts(ps[i]) && ps[i].status != Some("waiting_for_confirm")
          && (ps[i].status.GetOr("") == "" ==> Promptless(ps, i)))
  }

  predicate AllLabelled(ps: seq<Payload>) {
    forall i :: 0 <= i < |ps| ==> Labelled(ps, i)
  }

  predicate EndsPrompting(ps: seq<Payload>) {
    ps != [] && Prompts(ps[|ps| - 1])
  }

  /** While the last event reported is a prompt, the process waits for a decision or has exited. */
  predicate Asks(m: Machine) {
    && AllLabelled(Emitted(m.trace))
    && (EndsPrompting(Emitted(m.trace)) && !m.stage.Exited? ==> m.stage == Comparing(true))
  }

  // ---- The process keeps it ----

  lemma EmittedSay(m: Machine, p: Payload)
    ensures Emitted(m.Say(p).trace) == Emitted(m.trace) + [p]
  {
    assert m.Say(p).trace[..|m.trace|] == m.trace;
  }

  lemma EmittedDo(m: Machine, act: Act)
    requires !act.Emit?
    ensures Emitted(m.Do(act).trace) == Emitted(m.trace)
  {
    assert m.Do(act).trace[..|m.trace|] == m.trace;
  }

  lemma LabelledGrows(ps: seq<Payload>, p: Payload)
    requires AllLabelled(ps) && Labelled(ps + [p], |ps|)
    ensures AllLabelled(ps + [p])
  {
    hide Named;
    var more := ps + [p];
    forall i | 0 <= i < |more| ensures Labelled(more, i) {
      if i < |ps| {
        assert Labelled(ps, i) && more[i] == ps[i];
        assert Promptless(ps, i) ==> Promptless(more, i);
      }
    }
  }

  /** Saying anything but a prompt, with a status of its own, keeps it at every stage. */
  lemma AsksSay(m: Machine, p: Payload, next: Stage)
    requires Asks(m) && !Prompts(p)
        && (Named(p) || (p.status.GetOr("") != "" && p.status != Some("waiting_for_confirm")))
    ensures Asks(m.Say(p)) && Asks(m.Say(p).To(next))
  {
    hide Named, Emitted;
    EmittedSay(m, p);
    LabelledGrows(Emitted(m.trace), p);
  }

  lemma AsksPrompt(m: Machine, e: Option<seq<Emoji>>, d: seq<int>)
    requires Asks(m)
    ensures Asks(m.To(Comparing(true)).Say(EmojiReady(e, d)))
  {
    hide Named, Emitted;
    EmittedSay(m.To(Comparing(true)), EmojiReady(e, d));
    LabelledGrows(Emitted(m.trace), EmojiReady(e, d));
  }

  lemma AsksOnSas(m: Machine, s: SasState)
    requires Asks(m)
    ensures Asks(OnSas(m, s))
  {
    hide Asks;
    match s
    case SasCreated => AsksSay(m, Plain("sas_created", "waiting_for_emoji"), m.stage);
    case SasStarted => AsksSay(m, Plain("sas_started", "waiting_for_emoji"), m.stage);
    case SasAccepted => AsksSay(m, Plain("sas_accepted", "waiting_for_emoji"), m.stage);
    case KeysExchanged(e, d) => AsksPrompt(m, e, d);
    case SasConfirmed => AsksSay(m, Plain("sas_confirmed", "confirming"), m.stage);
    case SasDone => AsksSay(m, Complete("done"), Exited(true));
    case SasCancelled(reason) => AsksSay(m, CancelledFor(reason), Exited(false));
  }

  lemma AsksDo(m: Machine, act: Act, next: Stage)
    requires Asks(m) && !act.Emit? && (next == m.stage || next.Exited? || !EndsPrompting(Emitted(m.trace)))
    ensures Asks(m.Do(act).To(next))
  {
    hide Emitted;
    EmittedDo(m, act);
  }

  lemma AsksOnRequest(m: Machine, s: RequestState, target: string)
    requires Asks(m)
    ensures Asks(OnRequest(m, s, target))
  {
    hide Asks, OnSas, ReadyDetail, Emitted;
    match s
    case Created => AsksSay(m, Plain("request_pending", "waiting_for_accept"), m.stage);
    case Requested(other) =>
      AsksSay(m, Acknowledged(other), m.stage);
    case Ready(other, start) =>
      var p := RequestReady(other, target);
      AsksSay(m, p, m.stage);
      EmittedSay(m, p);
      AsksDo(m.Say(p), StartsSas, m.stage);
      AsksDo(m.Say(p), StartsSas, Exited(false));
      AsksDo(m.Say(p), StartsSas, Comparing(false));
      assert m.Say(p).Do(StartsSas).To(m.stage) == m.Say(p).Do(StartsSas);
      if start.Started? { AsksOnSas(m.Say(p).Do(StartsSas).To(Comparing(false)), start.now); }
    case Transitioned(None) =>
    case Transitioned(Some(now)) =>
      AsksSay(m, Plain("sas_started", "waiting_for_emoji"), Comparing(false));
      AsksOnSas(m.Say(Plain("sas_started", "waiting_for_emoji")).To(Comparing(false)), now);
    case RequestDone => AsksSay(m, Complete("done"), Exited(true));
    case RequestCancelled(reason) => AsksSay(m, CancelledFor(reason), Exited(false));
  }

  lemma AsksDecide(m: Machine, act: Act, works: bool, next: Stage, report: Payload)
    requires Asks(m) && !act.Emit? && !Prompts(report) && (Named(report) || report.status == Some("rejected"))
    ensures Asks(Decide(m, act, works, next, report))
  {
    hide Named, Emitted;
    EmittedDo(m, act);
    EmittedSay(m.Do(act).To(next), report);
    LabelledGrows(Emitted(m.trace), report);
  }

  lemma AsksStep(m: Machine, i: Input, target: string)
    requires Asks(m)
    ensures Asks(Step(m, i, target))
  {
    hide Asks, OnSas, OnRequest, Decide;
    match i
    case Command(c, works) =>
      AsksDecide(m, CancelsRequest, works, Requesting, Plain("request_cancelled_locally", "cancelled"));
      AsksDecide(m, CancelsSas, works, Comparing(false), Plain("verification_cancelled_locally", "cancelled"));
      AsksDecide(m, Confirms, works, Comparing(false), Plain("verification_confirmed", "confirming"));
      AsksDecide(m, Mismatches, works, Comparing(false), Plain("verification_rejected", "rejected"));
    case CommandsClosed =>
    case RequestChange(s) => AsksOnRequest(m, s, target);
    case SasChange(s) => AsksOnSas(m, s);
    case StreamEnd => AsksExit(m);
  }

  lemma AsksExit(m: Machine)
    requires Asks(m)
    ensures Asks(m.To(Exited(false)))
  {
  }

  lemma {:induction false} AsksFeed(m: Machine, inputs: seq<Input>, from: nat, target: string)
    requires from <= |inputs| && Asks(m)
    ensures Asks(Feed(m, inputs, from, target))
    decreases |inputs| - from
  {
    hide Asks, Step;
    if from < |inputs| && !m.stage.Exited? {
      AsksStep(m, inputs[from], target);
      AsksFeed(Step(m, inputs[from], target), inputs, from + 1, target);
    }
  }

  /** The one event with no status of its own comes before any prompt. */
  lemma AsksFound(m: Machine, p: Payload)
    requires Asks(m) && Promptless(Emitted(m.trace), |Emitted(m.trace)|) && !Prompts(p) && p.status.None?
    ensures Asks(m.Say(p))
  {
    hide Named, Emitted;
    EmittedSay(m, p);
    assert Promptless(Emitted(m.trace) + [p], |Emitted(m.trace)|);
    LabelledGrows(Emitted(m.trace), p);
  }

  lemma AsksStart()
    ensures Asks(Machine(Requesting, [])) && Emitted([]) == []
  {
  }

  lemma SetupNamed(p: Payload)
    requires p.event == "secret_recovery" || p.event == "room_key_import"
    ensures Named(p) && !Prompts(p)
  {
  }

  predicate PromptFree(m: Machine) {
    Asks(m) && Asks(m.To(Exited(false))) && Promptless(Emitted(m.trace), |Emitted(m.trace)|)
  }

  /** Before the request no prompt is reported. */
  lemma QuietSay(m: Machine, p: Payload)
    requires PromptFree(m) && (p.event == "secret_recovery" || p.event == "room_key_import")
    ensures PromptFree(m.Say(p))
  {
    hide Asks, Emitted, Named, Prompts;
    SetupNamed(p);
    AsksSay(m, p, Exited(false));
    EmittedSay(m, p);
  }

  lemma QuietStart()
    ensures PromptFree(Machine(Requesting, []))
  {
    hide Asks, Emitted;
    AsksStart();
    AsksExit(Machine(Requesting, []));
  }

  lemma QuietAsks(m: Machine)
    requires PromptFree(m)
    ensures Asks(m.To(Exited(false)))
  {
    hide Asks;
  }

  lemma AsksPrepare(setup: Setup, target: string)
    ensures Asks(Prepare(setup, target))
  {
    hide Asks, Emitted, PromptFree;
    var m := Machine(Requesting, []);
    QuietStart();
    QuietAsks(m);
    if setup.clientBuilt && setup.recovery.Some? {
      var p1 := Plain("secret_recovery", setup.recovery.value.status).(detail := setup.recovery.value.detail);
      QuietSay(m, p1);
      QuietAsks(m.Say(p1));
      if setup.roomKeys.Some? {
        var p2 := Plain("room_key_import", setup.roomKeys.value.status).(detail := setup.roomKeys.value.detail);
        QuietSay(m.Say(p1), p2);
        QuietAsks(m.Say(p1).Say(p2));
        AsksPrepareRest(m.Say(p1).Say(p2), setup, target);
      }
    }
  }

  lemma AsksPrepareRest(m: Machine, setup: Setup, target: string)
    requires PromptFree(m)
    ensures var found := m.Say(Payload("device_found", None, None, None, None, None, None));
      && Asks(found.To(Exited(false))) && Asks(found.Say(Complete("already_verified")).To(Exited(true)))
      && Asks(found.Say(RequestCreated(setup.flowId, target)))
  {
    hide Asks, Emitted;
    var p := Payload("device_found", None, None, None, None, None, None);
    AsksFound(m, p);
    AsksExit(m.Say(p));
    AsksSay(m.Say(p), Complete("already_verified"), Exited(true));
    var created := RequestCreated(setup.flowId, target);
    AsksSay(m.Say(p), created, m.stage);
  }

  lemma RunAsks(setup: Setup, initial: RequestState, inputs: seq<Input>, target: string)
    ensures Asks(Run(setup, initial, inputs, target))
  {
    hide Asks, Prepare, OnRequest, Feed;
    AsksPrepare(setup, target);
    var m := Prepare(setup, target);
    if !m.stage.Exited? {
      AsksOnRequest(m, initial, target);
      AsksFeed(OnRequest(m, initial, target), inputs, 0, target);
    }
  }

  // ---- The monitor follows ----

  lemma {:induction false} NotAskedYet(lines: seq<Line>)
    requires AllLabelled(Payloads(lines)) && Promptless(Payloads(lines), |Payloads(lines)|)
    ensures Watched(STARTING, lines).status != "waiting_for_confirm"
  {
    if lines != [] {
      var init, last := lines[..|lines| - 1], lines[|lines| - 1];
      PrefixLabelled(lines);
      NotAskedYet(init);
      if last.Json? { assert Labelled(Payloads(lines), |Payloads(lines)| - 1); }
    }
  }

  lemma PrefixLabelled(lines: seq<Line>)
    requires lines != [] && AllLabelled(Payloads(lines))
    ensures var init := lines[..|lines| - 1];
      && AllLabelled(Payloads(init))
      && (Promptless(Payloads(lines), |Payloads(lines)|) ==> Promptless(Payloads(init), |Payloads(init)|))
  {
    hide Named;
    var ps, more := Payloads(lines[..|lines| - 1]), Payloads(lines);
    assert forall i :: 0 <= i < |ps| ==> ps[i] == more[i];
    forall i | 0 <= i < |ps| ensures Labelled(ps, i) {
      assert Labelled(more, i);
      assert Promptless(more, i) ==> Promptless(ps, i);
    }
  }

  lemma {:induction false} AskedAfterPrompt(lines: seq<Line>)
    requires AllLabelled(Payloads(lines))
    ensures var r, ps := Watched(STARTING, lines), Payloads(lines);
      r.status == "waiting_for_confirm" ==>
        EndsPrompting(ps) && Some(r.emojis) == ps[|ps| - 1].emojis && Some(r.decimals) == ps[|ps| - 1].decimals
  {
    if lines != [] {
      var init, last := lines[..|lines| - 1], lines[|lines| - 1];
      PrefixLabelled(lines);
      AskedAfterPrompt(init);
      if last.Json? {
        var ps := Payloads(lines);
        assert Labelled(ps, |ps| - 1);
        if !Named(last.payload) && !Prompts(last.payload) && Promptless(ps, |ps| - 1) {
          assert Promptless(Payloads(init), |Payloads(init)|);
          NotAskedYet(init);
        }
      }
    }
  }

  /** Whenever the attempt, having read all that was written, asks the user to compare emoji and the
      process has not exited, the process waits for that very decision: a confirmation sent now is
      acted on. The emoji and numbers it shows are those of the last exchange. */
  lemma AskedOnlyWhenAwaited(setup: Setup, initial: RequestState, inputs: seq<Input>, target: string, lines: seq<Line>)
    requires var m := Run(setup, initial, inputs, target); Payloads(lines) == Emitted(m.trace) && !m.stage.Exited?
    requires Watched(STARTING, lines).status == "waiting_for_confirm"
    ensures var m, r := Run(setup, initial, inputs, target), Watched(STARTING, lines);
      && m.stage == Comparing(true)
      && NewlyJudged(m, Step(m, Command(Confirm, true), target), Confirms)
      && EndsPrompting(Emitted(m.trace))
      && Emitted(m.trace)[|Emitted(m.trace)| - 1].emojis == Some(r.emojis)
      && Emitted(m.trace)[|Emitted(m.trace)| - 1].decimals == Some(r.decimals)
  {
    hide Run, Step, Emitted, Payloads, Watched, Labelled, Prompts;
    var m := Run(setup, initial, inputs, target);
    RunAsks(setup, initial, inputs, target);
    AskedAfterPrompt(lines);
    JudgesOnCommand(m, Command(Confirm, true), target);
  }
}
