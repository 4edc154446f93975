/** The interactive device-verification process: it follows the SDK's states and the user's
    commands, and reports every step as one JSON event. */
module VerificationDriver {
  import opened Options

  datatype Emoji = Emoji(symbol: string, description: string)

  /** An event as reported; only the fields the monitor reads. */
  datatype Payload = Payload(
    event: string,
    status: Option<string>,
    detail: Option<string>,
    reason: Option<string>,
    flowId: Option<string>,
    emojis: Option<seq<Emoji>>,
    decimals: Option<seq<int>>)

  function Plain(event: string, status: string): Payload {
    Payload(event, Some(status), None, None, None, None, None)
  }

  datatype SasState =
    | SasCreated
    | SasStarted
    | SasAccepted
    | KeysExchanged(emojis: Option<seq<Emoji>>, decimals: seq<int>)
    | SasConfirmed
    | SasDone
    | SasCancelled(reason: string)

  /** What asking the SDK to start emoji verification gives. */
  datatype Start = StartFails | NoSas | Started(now: SasState)

  datatype RequestState =
    | Created
    | Requested(other: string)
    | Ready(other: string, start: Start)
    | Transitioned(sas: Option<SasState>)
    | RequestDone
    | RequestCancelled(reason: string)

  datatype Command = Confirm | Reject | Cancel

  /** What a wait may be woken by; `works` says whether the SDK call a command leads to succeeds. */
  datatype Input =
    | Command(command: Command, works: bool)
    | CommandsClosed
    | RequestChange(request: RequestState)
    | SasChange(sas: SasState)
    | StreamEnd

  datatype Act = Emit(payload: Payload) | Confirms | Mismatches | CancelsSas | CancelsRequest | StartsSas

  // ---- The protocol as a machine ----

  datatype Stage = Requesting | Comparing(awaiting: bool) | Exited(ok: bool)

  datatype Machine = Machine(stage: Stage, trace: seq<Act>) {
    function Say(p: Payload): Machine {
      this.(trace := trace + [Emit(p)])
    }

    function Do(act: Act): Machine {
      this.(trace := trace + [act])
    }

    function To(next: Stage): Machine {
      this.(stage := next)
    }
  }

  function Complete(status: string): Payload {
    Plain("verification_complete", status)
  }

  function EmojiReady(emojis: Option<seq<Emoji>>, decimals: seq<int>): Payload {
    Payload("emoji_ready", Some("waiting_for_confirm"), None, None, None, Some(emojis.GetOr([])), Some(decimals))
  }

  function CancelledFor(reason: string): Payload {
    Payload("verification_cancelled", Some("cancelled"), None, Some(reason), None, None, None)
  }

  function ReadyDetail(other: string, target: string): string {
    if other == target then target + " accepted the request. Starting emoji verification…"
    else other + " accepted the request instead of " + target + ". Continuing with the accepting device."
  }

  function Acknowledged(other: string): Payload {
    Plain("request_received", "requested").(detail := Some("Verification request acknowledged by " + other + "."))
  }

  function RequestReady(other: string, target: string): Payload {
    Plain("request_ready", "ready_for_sas").(detail := Some(ReadyDetail(other, target)))
  }

  function RequestCreated(flowId: Option<string>, target: string): Payload {
    var detail := "Verification request sent to your other Matrix devices. Accept it on " + target + ".";
    Plain("request_created", "waiting_for_accept").(flowId := flowId, detail := Some(detail))
  }

  function OnSas(m: Machine, s: SasState): Machine {
    match s
    case SasCreated => m.Say(Plain("sas_created", "waiting_for_emoji"))
    case SasStarted => m.Say(Plain("sas_started", "waiting_for_emoji"))
    case SasAccepted => m.Say(Plain("sas_accepted", "waiting_for_emoji"))
    case KeysExchanged(emojis, decimals) => m.To(Comparing(true)).Say(EmojiReady(emojis, decimals))
    case SasConfirmed => m.Say(Plain("sas_confirmed", "confirming"))
    case SasDone => m.Say(Complete("done")).To(Exited(true))
    case SasCancelled(reason) => m.Say(CancelledFor(reason)).To(Exited(false))
  }

  function OnRequest(m: Machine, s: RequestState, target: string): Machine {
    match s
    case Created => m.Say(Plain("request_pending", "waiting_for_accept"))
    case Requested(other) =>
      m.Say(Acknowledged(other))
    case Ready(other, start) =>
      var ready := m.Say(RequestReady(other, target)).Do(StartsSas);
      (match start
       case StartFails => ready.To(Exited(false))
       case NoSas => ready
       case Started(now) => OnSas(ready.To(Comparing(false)), now))
    case Transitioned(None) => m
    case Transitioned(Some(now)) => OnSas(m.Say(Plain("sas_started", "waiting_for_emoji")).To(Comparing(false)), now)
    case RequestDone => m.Say(Complete("done")).To(Exited(true))
    case RequestCancelled(reason) => m.Say(CancelledFor(reason)).To(Exited(false))
  }

  /** Carry out a decision: the SDK call, then the report; a failed call ends the process. */
  function Decide(m: Machine, act: Act, works: bool, next: Stage, report: Payload): Machine {
    if works then m.Do(act).To(next).Say(report) else m.Do(act).To(Exited(false))
  }

  function OnCommand(m: Machine, c: Command, works: bool): Machine {
    match m.stage
    case Exited(_) => m
    case Requesting =>
      if c.Confirm? then m
      else Decide(m, CancelsRequest, works, Requesting, Plain("request_cancelled_locally", "cancelled"))
    case Comparing(awaiting) =>
      if c.Cancel? || (c.Reject? && !awaiting) then
        Decide(m, CancelsSas, works, Comparing(false), Plain("verification_cancelled_locally", "cancelled"))
      else if !awaiting then m
      else if c.Confirm? then
        Decide(m, Confirms, works, Comparing(false), Plain("verification_confirmed", "confirming"))
      else Decide(m, Mismatches, works, Comparing(false), Plain("verification_rejected", "rejected"))
  }

  /** One wake-up; each stage listens only to its own stream of states. */
  function Step(m: Machine, i: Input, target: string): Machine {
    match i
    case Command(c, works) => OnCommand(m, c, works)
    case CommandsClosed => m
    case RequestChange(s) => if m.stage.Requesting? then OnRequest(m, s, target) else m
    case SasChange(s) => if m.stage.Comparing? then OnSas(m, s) else m
    case StreamEnd => if m.stage.Exited? then m else m.To(Exited(false))
  }

  function Feed(m: Machine, inputs: seq<Input>, from: nat, target: string): Machine
    requires from <= |inputs|
    decreases |inputs| - from
  {
    if from == |inputs| || m.stage.Exited? then m else Feed(Step(m, inputs[from], target), inputs, from + 1, target)
  }

  // ---- Before the request ----

  datatype Outcome = Outcome(status: string, detail: Option<string>)

  /** How the preparation goes; None where a call fails or finds nothing. */
  datatype Setup = Setup(
    clientBuilt: bool,
    recovery: Option<Outcome>,
    roomKeys: Option<Outcome>,
    synced: bool,
    verified: Option<bool>,
    flowId: Option<string>)

  function Prepare(setup: Setup, target: string): Machine {
    var m := Machine(Requesting, []);
    if !setup.clientBuilt || setup.recovery.None? then m.To(Exited(false)) else
    var m1 := m.Say(Plain("secret_recovery", setup.recovery.value.status).(detail := setup.recovery.value.detail));
    if setup.roomKeys.None? then m1.To(Exited(false)) else
    var m2 := m1.Say(Plain("room_key_import", setup.roomKeys.value.status).(detail := setup.roomKeys.value.detail));
    if !setup.synced || setup.verified.None? then m2.To(Exited(false)) else
    var m3 := m2.Say(Payload("device_found", None, None, None, None, None, None));
    if setup.verified.value then m3.Say(Complete("already_verified")).To(Exited(true)) else
    if setup.flowId.None? then m3.To(Exited(false)) else
    m3.Say(RequestCreated(setup.flowId, target))
  }

  /** A whole run: preparation, the state the request is found in, then everything that wakes it. */
  function Run(setup: Setup, initial: RequestState, inputs: seq<Input>, target: string): Machine {
    var m := Prepare(setup, target);
    if m.stage.Exited? then m else Feed(OnRequest(m, initial, target), inputs, 0, target)
  }

  // ---- The process itself ----

  datatype Exit = Success | Failure | StillWaiting

  /** Where handling a request state leads. */
  datatype Next = Stay | Compare(now: SasState) | Leave(exit: Exit)

  class Process {
    const target: string
    const inputs: seq<Input>
    var read: nat
    var trace: seq<Act>

    constructor (target: string, inputs: seq<Input>)
      ensures this.target == target && this.inputs == inputs && read == 0 && trace == []
    {
      this.target, this.inputs, read, trace := target, inputs, 0, [];
    }

    function At(stage: Stage): Machine
      reads this
    {
      Machine(stage, trace)
    }

    /** A run's result agrees with the machine's stage. */
    static predicate Agrees(exit: Exit, stage: Stage) {
      match exit
      case Success => stage == Exited(true)
      case Failure => stage == Exited(false)
      case StillWaiting => !stage.Exited?
    }

    method Report(p: Payload)
      modifies this`trace
      ensures trace == old(trace) + [Emit(p)]
    {
      trace := trace + [Emit(p)];
    }

    method HandleSas(s: SasState, awaiting: bool) returns (exit: Exit, nowAwaiting: bool)
      modifies this`trace
      ensures Agrees(exit, OnSas(old(At(Comparing(awaiting))), s).stage)
      ensures trace == OnSas(old(At(Comparing(awaiting))), s).trace
      ensures exit.StillWaiting? ==> OnSas(old(At(Comparing(awaiting))), s) == At(Comparing(nowAwaiting))
    {
      exit, nowAwaiting := StillWaiting, awaiting;
      match s {
        case SasCreated => Report(Plain("sas_created", "waiting_for_emoji"));
        case SasStarted => Report(Plain("sas_started", "waiting_for_emoji"));
        case SasAccepted => Report(Plain("sas_accepted", "waiting_for_emoji"));
        case KeysExchanged(emojis, decimals) =>
          nowAwaiting := true;
          Report(EmojiReady(emojis, decimals));
        case SasConfirmed => Report(Plain("sas_confirmed", "confirming"));
        case SasDone => Report(Complete("done")); exit := Success;
        case SasCancelled(reason) => Report(CancelledFor(reason)); exit := Failure;
      }
    }

    method WaitForSas(now: SasState) returns (exit: Exit)
      requires read <= |inputs|
      modifies this
      ensures read <= |inputs|
      ensures var end := Feed(OnSas(old(At(Comparing(false))), now), inputs, old(read), target);
        Agrees(exit, end.stage) && trace == end.trace
    {
      ghost var all := Feed(OnSas(At(Comparing(false)), now), inputs, read, target);
      var awaiting;
      exit, awaiting := HandleSas(now, false);
      if !exit.StillWaiting? { return; }
      while read < |inputs|
        invariant read <= |inputs|
        invariant Feed(At(Comparing(awaiting)), inputs, read, target) == all
        decreases |inputs| - read
      {
        var input := inputs[read];
        read := read + 1;
        match input {
          case CommandsClosed =>
          case RequestChange(_) =>
          case StreamEnd => return Failure;
          case SasChange(s) =>
            exit, awaiting := HandleSas(s, awaiting);
            if !exit.StillWaiting? { return; }
          case Command(command, works) =>
            if !awaiting {
              if command.Cancel? || command.Reject? {
                trace := trace + [CancelsSas];
                if !works { return Failure; }
                Report(Plain("verification_cancelled_locally", "cancelled"));
              }
              continue;
            }
            match command {
              case Confirm =>
                trace := trace + [Confirms];
                if !works { return Failure; }
                awaiting := false;
                Report(Plain("verification_confirmed", "confirming"));
              case Reject =>
                trace := trace + [Mismatches];
                if !works { return Failure; }
                awaiting := false;
                Report(Plain("verification_rejected", "rejected"));
              case Cancel =>
                trace := trace + [CancelsSas];
                if !works { return Failure; }
                awaiting := false;
                Report(Plain("verification_cancelled_locally", "cancelled"));
            }
        }
      }
      exit := StillWaiting;
    }

    method HandleRequest(s: RequestState) returns (next: Next)
      modifies this`trace
      ensures match next
        case Stay => OnRequest(old(At(Requesting)), s, target) == At(Requesting)
        case Compare(now) => OnRequest(old(At(Requesting)), s, target) == OnSas(At(Comparing(false)), now)
        case Leave(exit) => exit != StillWaiting && Agrees(exit, OnRequest(old(At(Requesting)), s, target).stage)
                            && OnRequest(old(At(Requesting)), s, target).trace == trace
    {
      next := Stay;
      match s {
        case Created => Report(Plain("request_pending", "waiting_for_accept"));
        case Requested(other) =>
          Report(Acknowledged(other));
        case Ready(other, start) =>
          Report(RequestReady(other, target));
          trace := trace + [StartsSas];
          match start {
            case StartFails => next := Leave(Failure);
            case NoSas =>
            case Started(now) => next := Compare(now);
          }
        case Transitioned(sas) =>
          if sas.Some? {
            Report(Plain("sas_started", "waiting_for_emoji"));
            next := Compare(sas.value);
          }
        case RequestDone => Report(Complete("done")); next := Leave(Success);
        case RequestCancelled(reason) => Report(CancelledFor(reason)); next := Leave(Failure);
      }
    }

    method WaitForRequest(initial: RequestState) returns (exit: Exit)
      requires read <= |inputs|
      modifies this
      ensures var end := Feed(OnRequest(old(At(Requesting)), initial, target), inputs, old(read), target);
        Agrees(exit, end.stage) && trace == end.trace
    {
      hide OnRequest, OnSas, ReadyDetail;
      ghost var all := Feed(OnRequest(At(Requesting), initial, target), inputs, read, target);
      var next := HandleRequest(initial);
      while next.Stay? && read < |inputs|
        invariant read <= |inputs|
        invariant match next
          case Stay => Feed(At(Requesting), inputs, read, target) == all
          case Compare(now) => Feed(OnSas(At(Comparing(false)), now), inputs, read, target) == all
          case Leave(e) => e != StillWaiting && Agrees(e, all.stage) && all.trace == trace
        decreases |inputs| - read
      {
        var input := inputs[read];
        read := read + 1;
        match input {
          case CommandsClosed =>
          case SasChange(_) =>
          case StreamEnd => next := Leave(Failure);
          case RequestChange(s) => next := HandleRequest(s);
          case Command(command, works) =>
            if !command.Confirm? {
              trace := trace + [CancelsRequest];
              if works {
                Report(Plain("request_cancelled_locally", "cancelled"));
              } else {
                next := Leave(Failure);
              }
            }
        }
      }
      match next {
        case Stay => exit := StillWaiting;
        case Compare(now) => exit := WaitForSas(now);
        case Leave(e) => exit := e;
      }
    }

    /** Restore secrets and room keys, sync, find the device and ask it to verify. */
    method PrepareRequest(setup: Setup) returns (exit: Exit)
      requires trace == []
      modifies this`trace
      ensures Agrees(exit, Prepare(setup, target).stage) && trace == Prepare(setup, target).trace
      ensures exit.StillWaiting? ==> Prepare(setup, target).stage.Requesting?
    {
      if !setup.clientBuilt || setup.recovery.None? { return Failure; }
      Report(Plain("secret_recovery", setup.recovery.value.status).(detail := setup.recovery.value.detail));
      if setup.roomKeys.None? { return Failure; }
      Report(Plain("room_key_import", setup.roomKeys.value.status).(detail := setup.roomKeys.value.detail));
      if !setup.synced || setup.verified.None? { return Failure; }
      Report(Payload("device_found", None, None, None, None, None, None));
      if setup.verified.value {
        Report(Complete("already_verified"));
        return Success;
      }
      if setup.flowId.None? { return Failure; }
      Report(RequestCreated(setup.flowId, target));
      exit := StillWaiting;
    }

    /** The whole process. */
    method RunInteractive(setup: Setup, initial: RequestState) returns (exit: Exit)
      requires read == 0 && trace == []
      modifies this
      ensures var end := Run(setup, initial, inputs, target);
        Agrees(exit, end.stage) && trace == end.trace
    {
      hide OnRequest, OnSas, Feed, Prepare;
      exit := PrepareRequest(setup);
      if !exit.StillWaiting? { return; }
      exit := WaitForRequest(initial);
    }
  }
}
