/** Turning a raw Matrix timeline event into a row to store. */
module MatrixAdapter {
  import opened Options
  import opened Timestamps

  datatype Classification = DecryptedText | DecryptedNonText | PlainText | Undecrypted | UnsupportedCustom

  /** One entry of a server page: undecodable, or the fields the adapter reads. `decrypted`
      says whether the SDK attached encryption info; `body` is already trimmed. */
  datatype RawEvent =
    | Malformed
    | Raw(eventId: Option<string>, sender: string, serverTs: Option<nat>, eventType: string,
          msgtype: string, body: string, decrypted: bool)

  datatype IngestEvent = IngestEvent(
    externalId: string,
    senderId: string,
    occurredAt: string,
    contentText: string,
    rawEvent: RawEvent,
    isInbound: bool,
    classification: Classification)

  predicate StartsWith(s: string, prefix: string) {
    prefix <= s
  }

  predicate Contains(s: string, part: string) {
    exists i :: 0 <= i <= |s| && part <= s[i..]
  }

  predicate ShouldIngestEvent(eventType: string) {
    || eventType == "m.room.message"
    || eventType == "m.room.encrypted"
    || Contains(eventType, "beeper")
    || (!StartsWith(eventType, "m.room.") && !StartsWith(eventType, "org.matrix"))
  }

  function ClassifyEvent(eventType: string, decrypted: bool, msgtype: string): Classification {
    if eventType == "m.room.message" then
      if !decrypted then PlainText
      else if msgtype == "m.text" || msgtype == "m.notice" || msgtype == "m.emote" then DecryptedText
      else DecryptedNonText
    else if eventType == "m.room.encrypted" then Undecrypted
    else UnsupportedCustom
  }

  function RenderBody(eventType: string, msgtype: string, body: string, classification: Classification): string {
    if body != "" then body else
      match classification
      case Undecrypted => "[undecrypted]"
      case UnsupportedCustom => "[custom event: " + eventType + "]"
      case DecryptedNonText | PlainText =>
        if msgtype == "" then "[non-text message]" else "[non-text message: " + msgtype + "]"
      case DecryptedText => "[message]"
  }

  predicate Ingestable(raw: RawEvent) {
    raw.Raw? && raw.eventId.Some? && raw.serverTs.Some? && ShouldIngestEvent(raw.eventType)
  }

  function ParseTimelineEvent(raw: RawEvent, selfUserId: Option<string>): (event: Option<IngestEvent>)
    ensures event.Some? <==> Ingestable(raw)
    ensures event.Some? ==> event.value.externalId == raw.eventId.value && event.value.rawEvent == raw
    ensures event.Some? ==> Dated(event.value)
  {
    if raw.Malformed? || raw.eventId.None? || raw.serverTs.None? || !ShouldIngestEvent(raw.eventType) then None else
      var classification := ClassifyEvent(raw.eventType, raw.decrypted, raw.msgtype);
      Some(IngestEvent(
        raw.eventId.value,
        raw.sender,
        Render(raw.serverTs.value),
        RenderBody(raw.eventType, raw.msgtype, raw.body, classification),
        raw,
        selfUserId != Some(raw.sender),
        classification))
  }

  /** The time the pagination loop compares: a missing timestamp counts as zero. */
  function TimeOf(raw: RawEvent): nat
    requires raw.Raw?
  {
    raw.serverTs.GetOr(0)
  }

  /** A stored event carries the time it was sent, and its text form. */
  predicate Dated(e: IngestEvent) {
    e.rawEvent.Raw? && e.rawEvent.serverTs.Some? && e.occurredAt == Render(e.rawEvent.serverTs.value)
  }

  function SentAt(e: IngestEvent): nat
    requires Dated(e)
  {
    e.rawEvent.serverTs.value
  }

  /** A row reads "[undecrypted]" exactly when the event came encrypted with no text, or its text
      is just that; so counting such rows finds every event still to be decrypted. */
  lemma UndecryptedRows(raw: RawEvent, selfUserId: Option<string>)
    requires ParseTimelineEvent(raw, selfUserId).Some?
    ensures var e := ParseTimelineEvent(raw, selfUserId).value;
      e.contentText == "[undecrypted]"
      <==> raw.body == "[undecrypted]" || (raw.body == "" && raw.eventType == "m.room.encrypted")
  {
    var e := ParseTimelineEvent(raw, selfUserId).value;
    assert "[undecrypted]"[1] == 'u';
    assert ("[custom event: " + raw.eventType + "]")[1] == 'c';
    assert "[non-text message]"[1] == 'n' && ("[non-text message: " + raw.msgtype + "]")[1] == 'n'
        && "[message]"[1] == 'm';
  }
}
