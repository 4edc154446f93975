/** The bridge's side: it folds the process's output into an attempt record. */
module VerificationMonitor {
  import opened Options
  import opened VerificationDriver

  /** One line of output, with surrounding blanks already removed. */
  datatype Line = Json(payload: Payload) | Text(text: string)

  const LOG_LIMIT := 80

  datatype Record = Record(
    status: string,
    detail: string,
    flowId: Option<string>,
    emojis: seq<Emoji>,
    decimals: seq<int>,
    error: Option<string>,
    done: bool,
    latestEvent: Option<string>,
    logs: seq<string>)

  const STARTING := Record("starting", "Starting Matrix device verification…", None, [], [], None, false, None, [])

  const ACCEPT_EVENTS := {"request_created", "request_pending", "request_received"}
  const EMOJI_EVENTS := {
    "request_ready", "sas_started", "sas_created", "sas_accepted", "secret_recovery", "room_key_import"}
  const CONFIRMING_EVENTS := {"verification_confirmed", "sas_confirmed"}
  const CANCEL_EVENTS := {"verification_cancelled", "verification_cancelled_locally", "request_cancelled_locally"}
  const COMPARE := "Compare the emojis in your trusted Matrix client, then confirm or reject them here."

  /** Python's `or` over texts: absent and empty both give way. */
  function Or(text: Option<string>, fallback: string): string {
    if text.GetOr("") == "" then fallback else text.value
  }

  function Log(logs: seq<string>, message: string): (r: seq<string>)
    ensures |logs| <= LOG_LIMIT ==> |r| <= LOG_LIMIT
  {
    if message == "" then logs
    else var all := logs + [message]; if |all| > LOG_LIMIT then all[|all| - LOG_LIMIT..] else all
  }

  /** The fields every event may carry. */
  function Noted(r: Record, p: Payload): Record {
    r.(latestEvent := if p.event != "" then Some(p.event) else r.latestEvent,
       flowId := if p.flowId.GetOr("") != "" then p.flowId else r.flowId,
       emojis := p.emojis.GetOr(r.emojis),
       decimals := p.decimals.GetOr(r.decimals),
       detail := Or(p.detail, Or(p.reason, r.detail)))
  }

  lemma NotedKeepsStatus(r: Record, p: Payload)
    ensures var n := Noted(r, p); n.status == r.status && n.done == r.done && n.error == r.error && n.logs == r.logs
  {
  }

  function Applied(r: Record, p: Payload): Record {
    var n := Noted(r, p);
    if p.event in ACCEPT_EVENTS then n.(status := "waiting_for_accept")
    else if p.event in EMOJI_EVENTS then n.(status := "waiting_for_emoji")
    else if p.event == "emoji_ready" then n.(status := "waiting_for_confirm", detail := COMPARE)
    else if p.event in CONFIRMING_EVENTS then n.(status := "confirming")
    else if p.event == "verification_complete" then
      n.(status := "done", done := true, error := None, detail := Or(p.status, "Verification completed."))
    else if p.event in CANCEL_EVENTS then
      n.(status := "cancelled", done := true, error := Some(Or(p.reason, Or(p.detail, "Verification cancelled"))))
    else n.(status := Or(p.status, r.status))
  }

  function Heard(r: Record, line: Line): Record {
    match line
    case Json(p) => Applied(r, p)
    case Text(t) => if t == "" then r else r.(logs := Log(r.logs, "stdout: " + t))
  }

  function Watched(r: Record, lines: seq<Line>): Record {
    if lines == [] then r else Heard(Watched(r, lines[..|lines| - 1]), lines[|lines| - 1])
  }

  function LogAll(logs: seq<string>, lines: seq<string>): seq<string> {
    if lines == [] then logs else Log(LogAll(logs, lines[..|lines| - 1]), "stderr: " + lines[|lines| - 1])
  }

  function JoinLines(lines: seq<string>): string {
    if lines == [] then "" else if |lines| == 1 then lines[0] else lines[0] + "\n" + JoinLines(lines[1..])
  }

  function FailureText(stderr: seq<string>): string {
    var text := if JoinLines(stderr) == "" then "Matrix verification failed" else JoinLines(stderr);
    if |text| > 600 then text[..600] else text
  }

  /** What the monitor does once the process has exited. */
  function Finished(r: Record, code: int, stderr: seq<string>): Record {
    var logged := r.(logs := LogAll(r.logs, stderr));
    if code != 0 && !r.done then
      logged.(status := "failed", done := true, error := Some(FailureText(stderr)), detail := FailureText(stderr))
    else if code == 0 && !r.done then
      logged.(done := true, status := "done", detail := if r.detail == "" then "Verification completed." else r.detail)
    else logged
  }

  /** What the process makes of a line on its input. */
  function ParseCommand(line: string): Option<Command> {
    if line == "yes" || line == "confirm" then Some(Confirm)
    else if line == "no" || line == "reject" || line == "mismatch" then Some(Reject)
    else if line == "cancel" then Some(Cancel)
    else None
  }

  datatype Reply = Sent | AlreadyFinished | NotRunning | BadDecision

  const DECISIONS := {"yes", "confirm", "no", "reject", "cancel"}

  /** How the bridge answers a decision; only one that is sent reaches the process. */
  function ReplyTo(r: Record, decision: string, running: bool): Reply {
    if r.done then AlreadyFinished
    else if !running then NotRunning
    else if decision in DECISIONS then Sent
    else BadDecision
  }

  class VerificationAttempt {
    var status: string
    var detail: string
    var flowId: Option<string>
    var emojis: seq<Emoji>
    var decimals: seq<int>
    var error: Option<string>
    var done: bool
    var latestEvent: Option<string>
    var logs: seq<string>
    /** What has been written to the process's input. */
    var sent: seq<string>

    constructor ()
      ensures Now() == STARTING && sent == []
    {
      status, detail := "starting", "Starting Matrix device verification…";
      flowId, emojis, decimals, error, done, latestEvent, logs, sent := None, [], [], None, false, None, [], [];
    }

    function Now(): Record
      reads this
    {
      Record(status, detail, flowId, emojis, decimals, error, done, latestEvent, logs)
    }

    method AppendLog(message: string)
      modifies this`logs
      ensures logs == Log(old(logs), message)
    {
      if message == "" { return; }
      logs := logs + [message];
      if |logs| > LOG_LIMIT { logs := logs[|logs| - LOG_LIMIT..]; }
    }

    method Note(p: Payload)
      modifies this
      ensures Now() == Noted(old(Now()), p) && sent == old(sent)
    {
      var newDetail := Or(p.detail, Or(p.reason, detail));
      if p.event != "" { latestEvent := Some(p.event); }
      if p.flowId.Some? && p.flowId.value != "" { flowId := p.flowId; }
      if p.emojis.Some? { emojis := p.emojis.value; }
      if p.decimals.Some? { decimals := p.decimals.value; }
      if newDetail != "" { detail := newDetail; }
    }

    method ApplyEvent(p: Payload)
      modifies this
      ensures Now() == Applied(old(Now()), p) && sent == old(sent)
    {
      hide Noted, Or;
      var newStatus := Or(p.status, status);
      Note(p);
      NotedKeepsStatus(old(Now()), p);
      if p.event in ACCEPT_EVENTS {
        status := "waiting_for_accept";
      } else if p.event in EMOJI_EVENTS {
        status := "waiting_for_emoji";
      } else if p.event == "emoji_ready" {
        status := "waiting_for_confirm";
        detail := COMPARE;
      } else if p.event in CONFIRMING_EVENTS {
        status := "confirming";
      } else if p.event == "verification_complete" {
        status, done, error := "done", true, None;
        detail := Or(p.status, "Verification completed.");
      } else if p.event in CANCEL_EVENTS {
        status, done := "cancelled", true;
        error := Some(Or(p.reason, Or(p.detail, "Verification cancelled")));
      } else {
        status := newStatus;
      }
    }

    method LogErrors(stderr: seq<string>)
      modifies this`logs
      ensures logs == LogAll(old(logs), stderr)
    {
      for k := 0 to |stderr|
        invariant logs == LogAll(old(logs), stderr[..k])
      {
        assert stderr[..k + 1][..k] == stderr[..k];
        AppendLog("stderr: " + stderr[k]);
      }
      assert stderr[..|stderr|] == stderr;
    }

    method ReadLines(lines: seq<Line>)
      modifies this
      ensures Now() == Watched(old(Now()), lines) && sent == old(sent)
    {
      hide Applied, Log;
      for k := 0 to |lines|
        invariant Now() == Watched(old(Now()), lines[..k]) && sent == old(sent)
      {
        assert lines[..k + 1][..k] == lines[..k];
        match lines[k] {
          case Json(p) => ApplyEvent(p);
          case Text(t) => if t != "" { AppendLog("stdout: " + t); }
        }
      }
      assert lines[..|lines|] == lines;
    }

    method Monitor(lines: seq<Line>, code: int, stderr: seq<string>)
      modifies this
      ensures Now() == Finished(Watched(old(Now()), lines), code, stderr) && sent == old(sent)
    {
      hide Watched, LogAll;
      ReadLines(lines);
      LogErrors(stderr);
      if code != 0 && !done {
        status, done := "failed", true;
        error := Some(FailureText(stderr));
        detail := FailureText(stderr);
      } else if code == 0 && !done {
        done, status := true, "done";
        if detail == "" { detail := "Verification completed."; }
      }
    }

    /** A decision from the user, trimmed and in lower case. */
    method SendDecision(decision: string, running: bool) returns (reply: Reply)
      modifies this
      ensures reply == ReplyTo(old(Now()), decision, running)
      ensures sent == if reply.Sent? then old(sent) + [decision] else old(sent)
      ensures Now() == old(Now()).(logs := if reply.Sent? then Log(old(logs), "decision:" + decision) else old(logs))
      ensures reply.Sent? ==> ParseCommand(decision).Some?
    {
      if done { return AlreadyFinished; }
      if !running { return NotRunning; }
      if decision !in DECISIONS { return BadDecision; }
      sent := sent + [decision];
      AppendLog("decision:" + decision);
      reply := Sent;
    }
  }
}
