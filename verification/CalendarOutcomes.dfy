/** What the two calendar jobs leave behind, read off the rows and events themselves. */
module CalendarOutcomes {
  import opened Options
  import opened CalendarModel
  import opened CalendarReconcile
  import opened CalendarIngest
  import opened CalendarSync
  import opened CalendarNoEcho

  /** A task still ahead, with a time, that is kept here or in the Google calendar. */
  predicate Planned(a: Action) {
    && a.status in {Proposed, Scheduled, Ready} && a.start.Some?
    && a.sourceType != "calendar" && a.provider in {None, Some("google-calendar")}
  }

  /** The end the row gives, or as long after its start as its effort says, or an hour. */
  function PlannedEnd(a: Action): int
    requires a.start.Some?
  {
    if a.end.Some? then a.end.value
    else if a.effortMinutes.Some? && a.effortMinutes.value != 0 then a.start.value + a.effortMinutes.value * 60_000
    else a.start.value + 3_600_000
  }

  /** The event shows the task. */
  predicate Shows(e: RemoteEvent, a: Action)
    requires a.start.Some?
  {
    && e.summary == Some(a.title) && e.description == Some(a.summary.GetOr(""))
    && e.start == DateTime(a.start.value) && e.end == DateTime(PlannedEnd(a))
  }

  lemma FetchedAt(world: World, rows: seq<Row>, supply: seq<Posted>, id: ActionId) returns (i: nat)
    requires Runnable(world, rows, supply) && id in world.actions && Eligible(world.actions[id])
    ensures i < |rows| && rows[i] == Row(id, world.actions[id])
  {
    i :| 0 <= i < |rows| && rows[i].id == id;
  }

  lemma ShowsUnchanged(e: RemoteEvent, row: Row)
    requires row.action.start.Some?
    ensures Shows(e, row.action) <==> !Changed(e, EventForAction(row))
  {
  }

  /** After a full run every planned task of the table has a live event that shows its title, summary, start
      and end. The row keeps its task; it is as it was, or was given a new event and says so. */
  lemma PlannedIsShown(world: World, rows: seq<Row>, supply: seq<Posted>, id: ActionId)
    requires Runnable(world, rows, supply) && id in world.actions && Planned(world.actions[id])
    ensures var a, after := world.actions[id], Reconciled(world, rows, supply);
      && id in after.actions
      && var b := after.actions[id];
      && b.externalId.Some? && b.externalId.value in after.events && Shows(after.events[b.externalId.value], a)
      && b.title == a.title && b.summary == a.summary && b.start == a.start && b.end == a.end
      && b.effortMinutes == a.effortMinutes && b.sourceType == a.sourceType && b.sourceId == a.sourceId
      && (b == a || (b.provider == Some("google-calendar") && b.status == Scheduled))
  {
    hide Upto, IsFetch, DistinctClaims, FreshSupply, Changed, EventForAction, Shows;
    var i := FetchedAt(world, rows, supply, id);
    ActiveOwnsItsEvent(world, rows, supply, i);
    var after := Reconciled(world, rows, supply);
    ShowsUnchanged(after.events[after.actions[id].externalId.value], rows[i]);
  }

  /** The event a planned task had is the one it has, if it was still there; otherwise it gets one new to both
      sides, tagged with the task, and the row names it and its link. */
  lemma PlannedKeepsItsEvent(world: World, rows: seq<Row>, supply: seq<Posted>, id: ActionId)
    requires Runnable(world, rows, supply) && id in world.actions && Planned(world.actions[id])
    ensures var a, after := world.actions[id], Reconciled(world, rows, supply);
      && id in after.actions && after.actions[id].externalId.Some?
      && var b, e := after.actions[id], after.actions[id].externalId.value;
      if a.externalId.Some? && a.externalId.value != "" && a.externalId.value in world.events then b == a
      else
        && e !in world.events && e in after.events
        && after.events[e].status == "confirmed"
        && after.events[e].tag == Some(Tag(id, a.sourceType, a.sourceId.GetOr("")))
        && b.metadata == a.metadata["calendar_html_link" := after.events[e].link.GetOr("null")]
             + (if a.externalId.Some? && a.externalId.value != "" then map["recreated" := "true"] else map[])
  {
    hide Upto, IsFetch, DistinctClaims;
    var i := FetchedAt(world, rows, supply, id);
    UptoSettles(world, rows, supply, |rows|);
    assert Settled(world, Reconciled(world, rows, supply), rows[i], supply[i]);
  }

  /** An event written again because it no longer showed its task keeps what only the remote side sets. */
  lemma CorrectedEvent(world: World, rows: seq<Row>, supply: seq<Posted>, id: ActionId)
    requires Runnable(world, rows, supply) && id in world.actions && Planned(world.actions[id])
    requires world.actions[id].externalId.Some? && world.actions[id].externalId.value != ""
    requires world.actions[id].externalId.value in world.events
    ensures var a, after := world.actions[id], Reconciled(world, rows, supply);
            var was := world.events[a.externalId.value];
      && a.externalId.value in after.events
      && var now := after.events[a.externalId.value];
      && now.status == was.status && now.link == was.link && now.details == was.details
      && (if Shows(was, a) then now == was
          else now.tag == Some(Tag(id, a.sourceType, a.sourceId.GetOr(""))))
  {
    hide Upto, IsFetch, DistinctClaims, FreshSupply;
    var i := FetchedAt(world, rows, supply, id);
    ShowsUnchanged(world.events[world.actions[id].externalId.value], rows[i]);
    hide EventForAction, Changed, Shows;
    UptoSettles(world, rows, supply, |rows|);
    var after := Reconciled(world, rows, supply);
    assert Settled(world, after, rows[i], supply[i]);
    TagOf(rows[i]);
  }

  lemma TagOf(row: Row)
    ensures EventForAction(row).tag == Tag(row.id, row.action.sourceType, row.action.sourceId.GetOr(""))
  {
  }

  /** A run touches no other row: none that is done, none without a start or of another provider unless it was
      cancelled here, and no imported one. */
  lemma OthersUntouched(world: World, rows: seq<Row>, supply: seq<Posted>, id: ActionId)
    requires Runnable(world, rows, supply) && id in world.actions
    requires var a := world.actions[id];
      || a.status == Finished || a.sourceType == "calendar"
      || (a.provider.Some? && a.provider != Some("google-calendar"))
      || (a.start.None? && a.status != Cancelled) || (a.status == Cancelled && a.externalId.None?)
      || (a.status == Cancelled && a.provider.None?)
    ensures id in Reconciled(world, rows, supply).actions
    ensures Reconciled(world, rows, supply).actions[id] == world.actions[id]
  {
    hide Upto, IsFetch;
    UnrelatedUntouched(world, rows, supply);
  }

  /** A cancelled task that was in the Google calendar loses its event and stays as it is. */
  lemma CancelledIsGone(world: World, rows: seq<Row>, supply: seq<Posted>, id: ActionId)
    requires Runnable(world, rows, supply) && id in world.actions
    requires var a := world.actions[id];
      && a.status == Cancelled && a.sourceType != "calendar" && a.provider == Some("google-calendar")
      && a.externalId.Some? && a.externalId.value != ""
    ensures var after := Reconciled(world, rows, supply);
      && id in after.actions && after.actions[id] == world.actions[id]
      && world.actions[id].externalId.value !in after.events
  {
    hide Upto, IsFetch, DistinctClaims, FreshSupply;
    var i := FetchedAt(world, rows, supply, id);
    UptoSettles(world, rows, supply, |rows|);
    assert Settled(world, Reconciled(world, rows, supply), rows[i], supply[i]);
  }

  // ---- The counters ----

  /** A cancelled row whose event is taken away. */
  predicate Removes(a: Action) {
    a.status == Cancelled && a.externalId.Some? && a.externalId.value != ""
  }

  /** The row names an event, and it is there. */
  predicate HasEvent(events: Events, a: Action) {
    a.externalId.Some? && a.externalId.value != "" && a.externalId.value in events
  }

  predicate Lacks(events: Events, a: Action) {
    !Removes(a) && !HasEvent(events, a)
  }

  /** The row's event is there, and does not show its task. */
  predicate Stale(events: Events, a: Action) {
    !Removes(a) && HasEvent(events, a) && a.start.Some? && !Shows(events[a.externalId.value], a)
  }

  function RemovedBy(rows: seq<Row>, n: nat): set<int>
    requires n <= |rows|
  {
    set i | 0 <= i < n && Removes(rows[i].action)
  }

  function CreatedBy(events: Events, rows: seq<Row>, n: nat): set<int>
    requires n <= |rows|
  {
    set i | 0 <= i < n && Lacks(events, rows[i].action)
  }

  function UpdatedBy(events: Events, rows: seq<Row>, n: nat): set<int>
    requires n <= |rows|
  {
    set i | 0 <= i < n && Stale(events, rows[i].action)
  }

  lemma OneMoreRemoved(rows: seq<Row>, n: nat)
    requires 0 < n <= |rows|
    ensures |RemovedBy(rows, n)| == |RemovedBy(rows, n - 1)| + if Removes(rows[n - 1].action) then 1 else 0
  {
    hide Removes;
    assert RemovedBy(rows, n) == RemovedBy(rows, n - 1) + if Removes(rows[n - 1].action) then {n - 1} else {};
  }

  lemma OneMoreCreated(events: Events, rows: seq<Row>, n: nat)
    requires 0 < n <= |rows|
    ensures |CreatedBy(events, rows, n)|
      == |CreatedBy(events, rows, n - 1)| + if Lacks(events, rows[n - 1].action) then 1 else 0
  {
    hide Lacks;
    var last := if Lacks(events, rows[n - 1].action) then {n - 1} else {};
    assert CreatedBy(events, rows, n) == CreatedBy(events, rows, n - 1) + last;
  }

  lemma OneMoreUpdated(events: Events, rows: seq<Row>, n: nat)
    requires 0 < n <= |rows|
    ensures |UpdatedBy(events, rows, n)|
      == |UpdatedBy(events, rows, n - 1)| + if Stale(events, rows[n - 1].action) then 1 else 0
  {
    hide Stale;
    var last := if Stale(events, rows[n - 1].action) then {n - 1} else {};
    assert UpdatedBy(events, rows, n) == UpdatedBy(events, rows, n - 1) + last;
  }

  lemma TurnCounts(before: Events, world: World, row: Row, posted: Posted)
    requires Eligible(row.action)
    requires var e := row.action.externalId.GetOr("");
      (e in before <==> e in world.events) && (e in before ==> before[e] == world.events[e])
    ensures var after := Step(world, row, posted);
      && after.cancelled == world.cancelled + (if Removes(row.action) then 1 else 0)
      && after.created == world.created + (if Lacks(before, row.action) then 1 else 0)
      && after.updated == world.updated + (if Stale(before, row.action) then 1 else 0)
  {
  }

  lemma RunnableFetch(world: World, rows: seq<Row>, supply: seq<Posted>)
    requires Runnable(world, rows, supply)
    ensures IsFetch(world.actions, rows)
  {
  }

  /** The counters tell how many rows lost their event, were given one, or had it corrected. */
  lemma {:induction false} CountersTell(world: World, rows: seq<Row>, supply: seq<Posted>, n: nat)
    requires Runnable(world, rows, supply) && n <= |rows|
    ensures var after := Upto(world, rows, supply, n);
      && after.cancelled == world.cancelled + |RemovedBy(rows, n)|
      && after.created == world.created + |CreatedBy(world.events, rows, n)|
      && after.updated == world.updated + |UpdatedBy(world.events, rows, n)|
  {
    hide Step, Eligible, DistinctClaims, FreshSupply, IsFetch, Settled, Removes, Lacks, Stale;
    if n > 0 {
      hide RemovedBy, CreatedBy, UpdatedBy;
      CountersTell(world, rows, supply, n - 1);
      UptoSettles(world, rows, supply, n - 1);
      var mid, row := Upto(world, rows, supply, n - 1), rows[n - 1];
      assert SameAt(world, mid, row.id, row.action.externalId.GetOr(""));
      FetchedRow(world.actions, rows, n - 1) by { RunnableFetch(world, rows, supply); }
      TurnCounts(world.events, mid, row, supply[n - 1]);
      OneMoreRemoved(rows, n);
      OneMoreCreated(world.events, rows, n);
      OneMoreUpdated(world.events, rows, n);
    } else {
      assert RemovedBy(rows, 0) == {} && CreatedBy(world.events, rows, 0) == {};
      assert UpdatedBy(world.events, rows, 0) == {};
    }
  }

  // ---- What an import writes ----

  /** The listed event's time: that of day, or the start of its day. */
  function Moment(w: When): Option<int> {
    match w case DateTime(ms) => Some(ms) case AllDay(day) => Some(day * 24 * 60 * 60 * 1000) case Unset => None
  }

  const IMPORT_KEYS := {"source", "calendar_id", "calendar_summary", "html_link", "status", "all_day"}

  /** The row says what the event says. */
  predicate Tells(a: Action, l: Listed) {
    && a.sourceType == "calendar" && a.sourceId == None && a.provider == Some("google-calendar")
    && a.externalId == Some(l.calendar + ":" + l.id)
    && a.title == (if l.event.summary in {None, Some("")} then "(Untitled event)" else l.event.summary.value)
    && a.summary == (if l.event.description == Some("") then None else l.event.description)
    && a.start == Moment(l.event.start)
    && a.end == (if l.event.end == Unset then a.start else Moment(l.event.end))
    && a.status == (if l.event.status == "cancelled" then Cancelled
                    else if l.event.start == Unset then Proposed else Scheduled)
    && "all_day" in a.metadata && (a.metadata["all_day"] == "true" <==> l.event.start.AllDay?)
    && "calendar_id" in a.metadata && a.metadata["calendar_id"] == l.calendar
    && "status" in a.metadata && a.metadata["status"] == l.event.status
    && "html_link" in a.metadata && a.metadata["html_link"] == l.event.link.GetOr("null")
    && "calendar_summary" in a.metadata && a.metadata["calendar_summary"] == l.calendarSummary.GetOr("null")
    && "source" in a.metadata && a.metadata["source"] == "google-calendar-import"
    && forall k :: k in l.event.details && k !in IMPORT_KEYS ==> k in a.metadata && a.metadata[k] == l.event.details[k]
  }

  lemma ImportedTells(existing: Option<Action>, l: Listed)
    ensures Tells(ImportedRow(existing, l), l)
  {
  }

  ghost predicate Told(actions: Actions, l: Listed) {
    exists id :: id in actions && Tells(actions[id], l)
  }

  /** After a full import every event listed with an id and no tag has a row that says what it says: its title,
      text, times and calendar, with whole days from midnight on. */
  lemma ImportTells(s: System, op: Op, l: Listed)
    requires Inv(s) && FullImport(s, op) && l in op.listing && l.id != ""
    requires l.event.tag.None? || l.event.tag.value.actionId == ""
    ensures Told(Apply(s, op).actions, l)
  {
    hide Inv, Allowed, Apply, Tells, ImportedRow, Stands;
    FullImportPlaces(s, op);
    var id :| RowShows(Apply(s, op).actions, id, l);
    ImportedTells(Some(Apply(s, op).actions[id]), l);
  }

  /** A row an import wrote before keeps its effort, and the metadata the import does not write. */
  lemma ImportKeeps(was: Action, l: Listed, k: string)
    requires k in was.metadata && k !in l.event.details
    requires k !in IMPORT_KEYS
    ensures var a := ImportedRow(Some(was), l);
      a.effortMinutes == was.effortMinutes && k in a.metadata && a.metadata[k] == was.metadata[k]
  {
  }

  /** An import takes nothing from events without an id or with a task's tag. */
  lemma {:induction false} SkippedLeaveTable(actions: Actions, listing: seq<Listed>, hits: seq<Option<ActionId>>,
                                             newIds: seq<ActionId>, n: nat)
    requires n <= |listing| && n <= |hits| && |listing| <= |newIds|
    requires forall i :: 0 <= i < n ==>
      listing[i].id == "" || (listing[i].event.tag.Some? && listing[i].event.tag.value.actionId != "")
    ensures ImportUpto(actions, listing, hits, newIds, n) == actions
  {
    hide ImportedRow;
    if n > 0 { SkippedLeaveTable(actions, listing, hits, newIds, n - 1); }
  }

  /** The row stands for none of these events: it is another provider's, or names none of them. */
  predicate Elsewhere(a: Action, listing: seq<Listed>, n: nat)
    requires n <= |listing|
  {
    || a.provider != Some("google-calendar")
    || forall i :: 0 <= i < n ==> a.externalId != Some(listing[i].calendar + ":" + listing[i].id)
  }

  /** An import leaves every row alone that stands for none of the events listed. */
  lemma {:induction false} ImportLeavesOthers(actions: Actions, listing: seq<Listed>, hits: seq<Option<ActionId>>,
                                              newIds: seq<ActionId>, n: nat, id: ActionId)
    requires n <= |listing| && n <= |hits| && |listing| <= |newIds|
    requires AnswersUpto(actions, listing, hits, newIds, n) && id !in newIds
    requires id in actions && Elsewhere(actions[id], listing, n)
    ensures id in ImportUpto(actions, listing, hits, newIds, n)
    ensures ImportUpto(actions, listing, hits, newIds, n)[id] == actions[id]
  {
    hide ImportedRow, ShouldSkip;
    if n > 0 { ImportLeavesOthers(actions, listing, hits, newIds, n - 1, id); }
  }
}
