/** Planned actions, remote calendar events, and the link between them. */
module CalendarModel {
  import opened Options

  type ActionId = string
  type EventId = string

  datatype Status = Proposed | Scheduled | Ready | Finished | Cancelled

  /** A row of the planned-actions table; times are milliseconds. */
  datatype Action = Action(
    sourceType: string,
    sourceId: Option<string>,
    title: string,
    summary: Option<string>,
    status: Status,
    start: Option<int>,
    end: Option<int>,
    effortMinutes: Option<int>,
    provider: Option<string>,
    externalId: Option<string>,
    metadata: map<string, string>)

  /** The private properties that mark an event as made for a planned action. */
  datatype Tag = Tag(actionId: string, sourceType: string, sourceId: string)

  datatype When = Unset | DateTime(ms: int) | AllDay(day: int)

  /** A remote event; `link` and `details` are fields only the remote side sets. */
  datatype RemoteEvent = RemoteEvent(
    status: string,
    summary: Option<string>,
    description: Option<string>,
    start: When,
    end: When,
    tag: Option<Tag>,
    link: Option<string>,
    details: map<string, string>)

  const GOOGLE := "google-calendar"
  const IMPORTED := "calendar"

  type Actions = map<ActionId, Action>
  type Events = map<EventId, RemoteEvent>

  /** JavaScript truth of the external id: absent and empty are both false. */
  predicate HasExternalId(a: Action) {
    a.externalId.Some? && a.externalId.value != ""
  }

  predicate Tagged(e: RemoteEvent) {
    e.tag.Some? && e.tag.value.actionId != ""
  }
}
