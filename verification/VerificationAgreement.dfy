/** What every run of the verification process keeps, and that the monitor ends up agreeing with it. */
module VerificationAgreement {
  import opened Options
  import opened VerificationDriver
  import opened VerificationMonitor

  // ---- Decision safety ----

  predicate Decision(act: Act) {
    act.Confirms? || act.Mismatches? || act.CancelsSas?
  }

  predicate Judges(act: Act) {
    act.Confirms? || act.Mismatches?
  }

  predicate ShowsEmoji(act: Act) {
    act.Emit? && act.payload.event == "emoji_ready"
  }

  predicate IsComplete(act: Act) {
    act.Emit? && act.payload.event == "verification_complete"
  }

  /** The emoji were shown at `j`, and nothing was decided between `j` and `i`. */
  predicate Offered(trace: seq<Act>, j: nat, i: nat)
    requires i <= |trace|
  {
    j < i && ShowsEmoji(trace[j]) && forall k :: j < k < i ==> !Decision(trace[k])
  }

  predicate Undecided(trace: seq<Act>, i: nat)
    requires i <= |trace|
  {
    exists j :: 0 <= j < i && Offered(trace, j, i)
  }

  /** Every confirmation or mismatch answers its own showing of the emoji. */
  predicate JudgesWhatWasShown(trace: seq<Act>) {
    forall i :: 0 <= i < |trace| && Judges(trace[i]) ==> Undecided(trace, i)
  }

  predicate CompleteIsLast(m: Machine) {
    && (forall i :: 0 <= i < |m.trace| && IsComplete(m.trace[i]) ==> i == |m.trace| - 1 && m.stage == Exited(true))
    && (m.stage == Exited(true) ==> m.trace != [] && IsComplete(m.trace[|m.trace| - 1]))
  }

  predicate Safe(m: Machine) {
    && JudgesWhatWasShown(m.trace)
    && (m.stage == Comparing(true) ==> Undecided(m.trace, |m.trace|))
    && (m.stage.Requesting? ==> forall i :: 0 <= i < |m.trace| ==> !Decision(m.trace[i]))
  }

  lemma UndecidedKept(trace: seq<Act>, i: nat, act: Act)
    requires i <= |trace| && Undecided(trace, i)
    ensures Undecided(trace + [act], i)
  {
    var j :| 0 <= j < i && Offered(trace, j, i);
    assert Offered(trace + [act], j, i);
  }

  /** An act may be added when it is not a judgement, or the emoji are waiting to be judged. */
  lemma JudgesExtend(trace: seq<Act>, act: Act)
    requires JudgesWhatWasShown(trace) && (Judges(act) ==> Undecided(trace, |trace|))
    ensures JudgesWhatWasShown(trace + [act])
    ensures ShowsEmoji(act) || (!Decision(act) && Undecided(trace, |trace|)) ==> Undecided(trace + [act], |trace| + 1)
  {
    hide Undecided;
    var longer := trace + [act];
    forall i | 0 <= i < |longer| && Judges(longer[i]) ensures Undecided(longer, i) {
      if i < |trace| { assert Undecided(trace, i); }
      UndecidedKept(trace, i, act);
    }
    if ShowsEmoji(act) {
      OfferedNow(trace, act);
    } else if !Decision(act) && Undecided(trace, |trace|) {
      StillOffered(trace, act);
    }
  }

  lemma OfferedNow(trace: seq<Act>, act: Act)
    requires ShowsEmoji(act)
    ensures Undecided(trace + [act], |trace| + 1)
  {
    assert Offered(trace + [act], |trace|, |trace| + 1);
  }

  lemma StillOffered(trace: seq<Act>, act: Act)
    requires Undecided(trace, |trace|) && !Decision(act)
    ensures Undecided(trace + [act], |trace| + 1)
  {
    var j :| 0 <= j < |trace| && Offered(trace, j, |trace|);
    assert Offered(trace + [act], j, |trace| + 1);
  }

  lemma SafeSay(m: Machine, p: Payload)
    requires Safe(m)
    ensures Safe(m.Say(p)) && (p.event == "emoji_ready" && !m.stage.Requesting? ==> Safe(m.Say(p).To(Comparing(true))))
  {
    hide Undecided, JudgesWhatWasShown;
    JudgesExtend(m.trace, Emit(p));
  }

  lemma SafeDo(m: Machine, act: Act)
    requires Safe(m) && !Judges(act) && !Decision(act)
    ensures Safe(m.Do(act))
  {
    hide Undecided, JudgesWhatWasShown;
    JudgesExtend(m.trace, act);
  }

  lemma SafeDecide(m: Machine, act: Act, works: bool, next: Stage, report: Payload)
    requires Safe(m) && (m.stage == Comparing(true) || !Judges(act)) && next != Comparing(true)
    requires next.Requesting? ==> m.stage.Requesting? && !Decision(act)
    ensures Safe(Decide(m, act, works, next, report))
  {
    hide Undecided, JudgesWhatWasShown;
    JudgesExtend(m.trace, act);
    SafeSay(m.Do(act).To(next), report);
  }

  lemma SafeOnSas(m: Machine, s: SasState)
    requires Safe(m) && !m.stage.Requesting?
    ensures Safe(OnSas(m, s))
  {
    hide Undecided, JudgesWhatWasShown;
    match s
    case SasCreated => SafeSay(m, Plain("sas_created", "waiting_for_emoji"));
    case SasStarted => SafeSay(m, Plain("sas_started", "waiting_for_emoji"));
    case SasAccepted => SafeSay(m, Plain("sas_accepted", "waiting_for_emoji"));
    case KeysExchanged(e, d) =>
      SafeSay(m, EmojiReady(e, d));
      assert m.To(Comparing(true)).Say(EmojiReady(e, d)) == m.Say(EmojiReady(e, d)).To(Comparing(true));
    case SasConfirmed => SafeSay(m, Plain("sas_confirmed", "confirming"));
    case SasDone => SafeSay(m, Complete("done"));
    case SasCancelled(reason) => SafeSay(m, CancelledFor(reason));
  }

  lemma SafeOnRequest(m: Machine, s: RequestState, target: string)
    requires Safe(m) && m.stage.Requesting?
    ensures Safe(OnRequest(m, s, target))
  {
    hide Undecided, JudgesWhatWasShown, ReadyDetail, OnSas;
    match s
    case Created => SafeSay(m, Plain("request_pending", "waiting_for_accept"));
    case Requested(other) =>
      SafeSay(m, Acknowledged(other));
    case Ready(other, start) =>
      var p := RequestReady(other, target);
      SafeSay(m, p);
      SafeDo(m.Say(p), StartsSas);
      if start.Started? { SafeOnSas(m.Say(p).Do(StartsSas).To(Comparing(false)), start.now); }
    case Transitioned(None) =>
    case Transitioned(Some(now)) =>
      SafeSay(m, Plain("sas_started", "waiting_for_emoji"));
      SafeOnSas(m.Say(Plain("sas_started", "waiting_for_emoji")).To(Comparing(false)), now);
    case RequestDone => SafeSay(m, Complete("done"));
    case RequestCancelled(reason) => SafeSay(m, CancelledFor(reason));
  }

  lemma SafeStep(m: Machine, i: Input, target: string)
    requires Safe(m)
    ensures Safe(Step(m, i, target))
  {
    hide Undecided, JudgesWhatWasShown, OnSas, OnRequest;
    match i
    case Command(c, works) =>
      if m.stage.Requesting? {
        SafeDecide(m, CancelsRequest, works, Requesting, Plain("request_cancelled_locally", "cancelled"));
      } else if m.stage.Comparing? {
        SafeDecide(m, CancelsSas, works, Comparing(false), Plain("verification_cancelled_locally", "cancelled"));
        if m.stage.awaiting {
          SafeDecide(m, Confirms, works, Comparing(false), Plain("verification_confirmed", "confirming"));
          SafeDecide(m, Mismatches, works, Comparing(false), Plain("verification_rejected", "rejected"));
        }
      }
    case CommandsClosed =>
    case RequestChange(s) => if m.stage.Requesting? { SafeOnRequest(m, s, target); }
    case SasChange(s) => if m.stage.Comparing? { SafeOnSas(m, s); }
    case StreamEnd =>
  }

  // ---- Completion ----

  predicate Open(m: Machine) {
    !m.stage.Exited? && forall i :: 0 <= i < |m.trace| ==> !IsComplete(m.trace[i])
  }

  lemma CompletesOnSas(m: Machine, s: SasState)
    requires Open(m)
    ensures CompleteIsLast(OnSas(m, s)) && (OnSas(m, s).stage.Exited? || Open(OnSas(m, s)))
  {
  }

  lemma CompletesOnRequest(m: Machine, s: RequestState, target: string)
    requires Open(m)
    ensures CompleteIsLast(OnRequest(m, s, target))
        && (OnRequest(m, s, target).stage.Exited? || Open(OnRequest(m, s, target)))
  {
    hide OnSas, ReadyDetail;
    match s
    case Ready(other, Started(now)) =>
      var p := RequestReady(other, target);
      CompletesOnSas(m.Say(p).Do(StartsSas).To(Comparing(false)), now);
    case Transitioned(Some(now)) =>
      CompletesOnSas(m.Say(Plain("sas_started", "waiting_for_emoji")).To(Comparing(false)), now);
    case _ =>
  }

  lemma CompletesStep(m: Machine, i: Input, target: string)
    requires Open(m)
    ensures CompleteIsLast(Step(m, i, target)) && (Step(m, i, target).stage.Exited? || Open(Step(m, i, target)))
  {
    hide OnSas, OnRequest;
    match i
    case RequestChange(s) => if m.stage.Requesting? { CompletesOnRequest(m, s, target); }
    case SasChange(s) => if m.stage.Comparing? { CompletesOnSas(m, s); }
    case _ =>
  }

  // ---- What the monitor can make of the events ----

  /** Events that settle the status by name, or carry a status other than "done". */
  predicate Known(p: Payload) {
    || p.event in ACCEPT_EVENTS + EMOJI_EVENTS + CONFIRMING_EVENTS + CANCEL_EVENTS
    || p.event == "emoji_ready" || p.event == "verification_complete"
    || p.status.GetOr("") != "done"
  }

  predicate AllKnown(trace: seq<Act>) {
    forall i :: 0 <= i < |trace| && trace[i].Emit? ==> Known(trace[i].payload)
  }

  lemma KnownOnSas(m: Machine, s: SasState)
    requires AllKnown(m.trace)
    ensures AllKnown(OnSas(m, s).trace)
  {
  }

  lemma KnownOnRequest(m: Machine, s: RequestState, target: string)
    requires AllKnown(m.trace)
    ensures AllKnown(OnRequest(m, s, target).trace)
  {
    hide OnSas, ReadyDetail;
    match s
    case Ready(other, Started(now)) =>
      var p := RequestReady(other, target);
      KnownOnSas(m.Say(p).Do(StartsSas).To(Comparing(false)), now);
    case Transitioned(Some(now)) =>
      KnownOnSas(m.Say(Plain("sas_started", "waiting_for_emoji")).To(Comparing(false)), now);
    case _ =>
  }

  lemma KnownStep(m: Machine, i: Input, target: string)
    requires AllKnown(m.trace)
    ensures AllKnown(Step(m, i, target).trace)
  {
    hide OnSas, OnRequest;
    match i
    case RequestChange(s) => KnownOnRequest(m, s, target);
    case SasChange(s) => KnownOnSas(m, s);
    case _ =>
  }

  // ---- Whole runs ----

  predicate Sound(m: Machine) {
    Safe(m) && CompleteIsLast(m) && AllKnown(m.trace) && (m.stage.Exited? || Open(m))
  }

  lemma {:induction false} FeedSound(m: Machine, inputs: seq<Input>, from: nat, target: string)
    requires from <= |inputs| && Sound(m)
    ensures Sound(Feed(m, inputs, from, target))
    decreases |inputs| - from
  {
    hide Safe, CompleteIsLast, AllKnown, Open, Step;
    if from < |inputs| && !m.stage.Exited? {
      SafeStep(m, inputs[from], target);
      CompletesStep(m, inputs[from], target);
      KnownStep(m, inputs[from], target);
      FeedSound(Step(m, inputs[from], target), inputs, from + 1, target);
    }
  }

  predicate Preparing(m: Machine) {
    m.stage.Requesting? && forall i ::
      0 <= i < |m.trace| ==> m.trace[i].Emit? && Known(m.trace[i].payload) && !IsComplete(m.trace[i])
  }

  lemma PreparingSay(m: Machine, p: Payload)
    requires Preparing(m) && Known(p) && p.event != "verification_complete"
    ensures Preparing(m.Say(p))
  {
    hide Known;
  }

  lemma PreparingSound(m: Machine)
    requires Preparing(m)
    ensures Sound(m) && Sound(m.To(Exited(false))) && Sound(m.Say(Complete("already_verified")).To(Exited(true)))
  {
    hide Undecided;
    assert JudgesWhatWasShown(m.trace) && JudgesWhatWasShown(m.Say(Complete("already_verified")).trace);
  }

  lemma PrepareSound(setup: Setup, target: string)
    ensures Sound(Prepare(setup, target))
        && (Prepare(setup, target).stage.Exited? || Prepare(setup, target).stage.Requesting?)
  {
    hide Sound, Preparing;
    var m := Machine(Requesting, []);
    assert Preparing(m) by { PreparingStart(m); }
    PreparingSound(m);
    if setup.clientBuilt && setup.recovery.Some? {
      var p1 := Plain("secret_recovery", setup.recovery.value.status).(detail := setup.recovery.value.detail);
      PreparingSay(m, p1);
      PreparingSound(m.Say(p1));
      if setup.roomKeys.Some? {
        var p2 := Plain("room_key_import", setup.roomKeys.value.status).(detail := setup.roomKeys.value.detail);
        PreparingSay(m.Say(p1), p2);
        PreparingSound(m.Say(p1).Say(p2));
        if setup.synced && setup.verified.Some? {
          PrepareRest(m.Say(p1).Say(p2), setup, target);
        }
      }
    }
  }

  lemma PreparingStart(m: Machine)
    requires m == Machine(Requesting, [])
    ensures Preparing(m)
  {
  }

  lemma PrepareRest(m: Machine, setup: Setup, target: string)
    requires Preparing(m)
    ensures var found := m.Say(Payload("device_found", None, None, None, None, None, None));
      && Sound(found) && Sound(found.To(Exited(false)))
            && Sound(found.Say(Complete("already_verified")).To(Exited(true)))
      && Sound(found.Say(RequestCreated(setup.flowId, target)))
  {
    hide Sound, Preparing;
    var found := Payload("device_found", None, None, None, None, None, None);
    PreparingSay(m, found);
    PreparingSound(m.Say(found));
    var created := RequestCreated(setup.flowId, target);
    PreparingSay(m.Say(found), created);
    PreparingSound(m.Say(found).Say(created));
  }

  /** Every run, whatever the SDK's states and the user's commands and in whatever order: each
      confirmation or mismatch judges emoji shown since the last decision, no decision is taken
      before emoji verification starts, and completion is reported once, last, and just when the
      process succeeds. */
  lemma EveryRunSound(setup: Setup, initial: RequestState, inputs: seq<Input>, target: string)
    ensures Sound(Run(setup, initial, inputs, target))
  {
    hide Safe, CompleteIsLast, AllKnown, Open, OnRequest, Feed, Prepare;
    var m := Prepare(setup, target);
    PrepareSound(setup, target);
    if !m.stage.Exited? {
      SafeOnRequest(m, initial, target);
      CompletesOnRequest(m, initial, target);
      KnownOnRequest(m, initial, target);
      FeedSound(OnRequest(m, initial, target), inputs, 0, target);
    }
  }

  /** The trace grows, and no judgement is among what is new. */
  predicate Quiet(m: Machine, after: Machine) {
    m.trace <= after.trace && forall k :: |m.trace| <= k < |after.trace| ==> !Judges(after.trace[k])
  }

  predicate NewlyJudged(m: Machine, after: Machine, act: Act) {
    m.trace <= after.trace && act in after.trace[|m.trace|..]
  }

  lemma QuietOnSas(m: Machine, s: SasState)
    ensures Quiet(m, OnSas(m, s))
  {
  }

  lemma QuietOnRequest(m: Machine, s: RequestState, target: string)
    ensures Quiet(m, OnRequest(m, s, target))
  {
    hide OnSas, ReadyDetail;
    match s
    case Ready(other, Started(now)) =>
      var p := RequestReady(other, target);
      QuietOnSas(m.Say(p).Do(StartsSas).To(Comparing(false)), now);
    case Transitioned(Some(now)) =>
      QuietOnSas(m.Say(Plain("sas_started", "waiting_for_emoji")).To(Comparing(false)), now);
    case _ =>
  }

  lemma DecideFirst(m: Machine, act: Act, works: bool, next: Stage, report: Payload, judged: Act)
    requires !judged.Emit?
    ensures NewlyJudged(m, Decide(m, act, works, next, report), judged) <==> judged == act
  {
    var after := Decide(m, act, works, next, report);
    assert m.trace <= after.trace && after.trace[|m.trace|..][0] == act;
  }

  lemma JudgesCommand(m: Machine, c: Command, works: bool)
    ensures NewlyJudged(m, OnCommand(m, c, works), Confirms) <==> m.stage == Comparing(true) && c.Confirm?
    ensures NewlyJudged(m, OnCommand(m, c, works), Mismatches) <==> m.stage == Comparing(true) && c.Reject?
  {
    hide Decide;
    var reports := [
      Plain("request_cancelled_locally", "cancelled"), Plain("verification_cancelled_locally", "cancelled"),
      Plain("verification_confirmed", "confirming"), Plain("verification_rejected", "rejected")];
    forall judged | judged == Confirms || judged == Mismatches
      ensures NewlyJudged(m, OnCommand(m, c, works), judged) <==>
        m.stage == Comparing(true) && (if judged == Confirms then c.Confirm? else c.Reject?)
    {
      DecideFirst(m, CancelsRequest, works, Requesting, reports[0], judged);
      DecideFirst(m, CancelsSas, works, Comparing(false), reports[1], judged);
      DecideFirst(m, Confirms, works, Comparing(false), reports[2], judged);
      DecideFirst(m, Mismatches, works, Comparing(false), reports[3], judged);
    }
  }

  /** A step confirms exactly on the user's word while shown emoji wait for it, and likewise rejects. */
  lemma JudgesOnCommand(m: Machine, i: Input, target: string)
    ensures NewlyJudged(m, Step(m, i, target), Confirms)
        <==> m.stage == Comparing(true) && i.Command? && i.command.Confirm?
    ensures NewlyJudged(m, Step(m, i, target), Mismatches)
        <==> m.stage == Comparing(true) && i.Command? && i.command.Reject?
  {
    hide OnSas, OnRequest, OnCommand;
    match i
    case RequestChange(s) => QuietOnRequest(m, s, target);
    case SasChange(s) => QuietOnSas(m, s);
    case Command(c, works) => JudgesCommand(m, c, works);
    case _ =>
  }

  // ---- Agreement ----

  function Emitted(trace: seq<Act>): seq<Payload> {
    if trace == [] then []
    else Emitted(trace[..|trace| - 1]) + (if trace[|trace| - 1].Emit? then [trace[|trace| - 1].payload] else [])
  }

  /** The events among the lines read; other output may come between them. */
  function Payloads(lines: seq<Line>): seq<Payload> {
    if lines == [] then []
    else Payloads(lines[..|lines| - 1]) + (if lines[|lines| - 1].Json? then [lines[|lines| - 1].payload] else [])
  }

  lemma {:induction false} EmittedKnown(trace: seq<Act>)
    requires AllKnown(trace)
    ensures forall p :: p in Emitted(trace) ==> Known(p)
    ensures (forall i :: 0 <= i < |trace| ==> !IsComplete(trace[i])) ==> forall p ::
        p in Emitted(trace) ==> p.event != "verification_complete"
  {
    hide Known;
    if trace != [] {
      EmittedKnown(trace[..|trace| - 1]);
    }
  }

  /** Until completion is reported the record is not "done", and a finished record has an error. */
  predicate Pending(r: Record) {
    r.status != "done" && (r.done ==> r.error.Some?)
  }

  lemma {:induction false} PendingWhileIncomplete(lines: seq<Line>)
    requires forall p :: p in Payloads(lines) ==> Known(p) && p.event != "verification_complete"
    ensures Pending(Watched(STARTING, lines))
  {
    if lines != [] {
      PendingWhileIncomplete(lines[..|lines| - 1]);
    }
  }

  lemma {:induction false} DoneOnceComplete(lines: seq<Line>, r: Record)
    requires Payloads(lines) != [] && Payloads(lines)[|Payloads(lines)| - 1].event == "verification_complete"
    ensures var end := Watched(r, lines); end.done && end.status == "done" && end.error.None?
  {
    if lines[|lines| - 1].Text? {
      assert Payloads(lines) == Payloads(lines[..|lines| - 1]);
      DoneOnceComplete(lines[..|lines| - 1], r);
    }
  }

  /** Once the process has exited and the monitor has read all it wrote, the attempt is finished;
      it says "done" exactly when the process succeeded, exactly when the last event reported was
      completion, and exactly then it holds no error. */
  lemma MonitorAgrees(setup: Setup, initial: RequestState, inputs: seq<Input>, target: string,
                      lines: seq<Line>, code: int, stderr: seq<string>)
    requires var m := Run(setup, initial, inputs, target);
      m.stage.Exited? && (code == 0 <==> m.stage.ok) && Payloads(lines) == Emitted(m.trace)
    ensures var m := Run(setup, initial, inputs, target); var end := Finished(Watched(STARTING, lines), code, stderr);
      && end.done
      && (end.status == "done" <==> code == 0)
      && (end.error.None? <==> code == 0)
      && (code == 0 <==> m.trace != [] && IsComplete(m.trace[|m.trace| - 1]))
  {
    hide Run, Known, Safe;
    var m := Run(setup, initial, inputs, target);
    EveryRunSound(setup, initial, inputs, target);
    if code == 0 {
      DoneOnceComplete(lines, STARTING);
    } else {
      EmittedKnown(m.trace);
      PendingWhileIncomplete(lines);
    }
  }

  /** Whatever a process writes, a finished attempt stays finished. */
  lemma {:induction false} DoneNeverReverts(r: Record, lines: seq<Line>, code: int, stderr: seq<string>)
    requires r.done
    ensures Watched(r, lines).done && Finished(Watched(r, lines), code, stderr).done
  {
    if lines != [] {
      DoneNeverReverts(r, lines[..|lines| - 1], code, stderr);
    }
  }

  /** A process may still succeed after the user cancelled the request: it goes on following the SDK.
      VerificationCancel says exactly when. */
  lemma CancelledMayStillFinish(setup: Setup, target: string)
    requires Prepare(setup, target).stage.Requesting?
    ensures var m := Run(setup, Created, [Command(Cancel, true), RequestChange(RequestDone)], target);
      && m.stage == Exited(true)
      && (exists i :: 0 <= i < |m.trace| && m.trace[i] == Emit(Plain("request_cancelled_locally", "cancelled")))
  {
    var inputs := [Command(Cancel, true), RequestChange(RequestDone)];
    var m0 := OnRequest(Prepare(setup, target), Created, target);
    var m1 := Step(m0, inputs[0], target);
    assert m1.trace[|m0.trace| + 1] == Emit(Plain("request_cancelled_locally", "cancelled"));
    assert Feed(m0, inputs, 0, target) == Feed(m1, inputs, 1, target) == Step(m1, inputs[1], target);
    var m := Step(m1, inputs[1], target);
    assert m.trace[|m0.trace| + 1] == m1.trace[|m0.trace| + 1];
  }
}
