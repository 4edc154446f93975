/** Pushing planned actions out to the remote calendar. */
module CalendarReconcile {
  import opened Options
  import opened CalendarModel

  // ---- Which actions, and what event each should have ----

  predicate Active(a: Action) {
    && (a.status.Proposed? || a.status.Scheduled? || a.status.Ready?)
    && a.start.Some?
    && a.sourceType != IMPORTED
    && (a.provider.None? || a.provider == Some(GOOGLE))
  }

  predicate CancelledRemotely(a: Action) {
    a.status.Cancelled? && a.sourceType != IMPORTED && a.provider == Some(GOOGLE) && a.externalId.Some?
  }

  predicate Eligible(a: Action) {
    Active(a) || CancelledRemotely(a)
  }

  datatype Row = Row(id: ActionId, action: Action)

  /** The rows fetched are the eligible ones, each once, in whatever order. */
  ghost predicate IsFetch(actions: Actions, rows: seq<Row>) {
    && (forall i :: 0 <= i < |rows|
          ==> rows[i].id in actions && actions[rows[i].id] == rows[i].action && Eligible(rows[i].action))
    && (forall i, j :: 0 <= i < j < |rows| ==> rows[i].id != rows[j].id)
    && (forall id :: id in actions && Eligible(actions[id]) ==> exists i :: 0 <= i < |rows| && rows[i].id == id)
  }

  datatype Body = Body(summary: string, description: string, start: int, end: int, tag: Tag)

  const MINUTE_MS := 60_000

  function EventForAction(row: Row): Body {
    var a := row.action;
    var start := a.start.GetOr(0);
    var minutes := if a.effortMinutes.GetOr(0) == 0 then 60 else a.effortMinutes.value;
    Body(a.title, a.summary.GetOr(""), start, a.end.GetOr(start + minutes * MINUTE_MS),
         Tag(row.id, a.sourceType, a.sourceId.GetOr("")))
  }

  // ---- Remote calls and local updates ----

  /** What the remote side picks when an event is posted. */
  datatype Posted = Posted(id: EventId, link: Option<string>)

  function NewEvent(body: Body, posted: Posted): RemoteEvent {
    RemoteEvent("confirmed", Some(body.summary), Some(body.description), DateTime(body.start), DateTime(body.end),
                Some(body.tag), posted.link, map[])
  }

  function Patched(event: RemoteEvent, body: Body): RemoteEvent {
    event.(summary := Some(body.summary), description := Some(body.description),
           start := DateTime(body.start), end := DateTime(body.end), tag := Some(body.tag))
  }

  /** The comparison the job makes; it does not look at the tag. */
  predicate Changed(event: RemoteEvent, body: Body) {
    || event.summary != Some(body.summary)
    || event.description != Some(body.description)
    || event.start != DateTime(body.start)
    || event.end != DateTime(body.end)
  }

  function Linked(a: Action, posted: Posted, recreated: bool): Action {
    var link := a.metadata["calendar_html_link" := posted.link.GetOr("null")];
    a.(provider := Some(GOOGLE), externalId := Some(posted.id), status := Scheduled,
       metadata := if recreated then link["recreated" := "true"] else link)
  }

  datatype World = World(actions: Actions, events: Events, created: nat, updated: nat, cancelled: nat)

  function UpdateAction(actions: Actions, id: ActionId, a: Action): Actions {
    if id in actions then actions[id := a] else actions
  }

  function Create(world: World, row: Row, posted: Posted, recreated: bool): World {
    world.(events := world.events[posted.id := NewEvent(EventForAction(row), posted)],
           actions := UpdateAction(world.actions, row.id, Linked(row.action, posted, recreated)),
           created := world.created + 1)
  }

  /** One turn of the loop. */
  function Step(world: World, row: Row, posted: Posted): World {
    var a, body := row.action, EventForAction(row);
    if a.status.Cancelled? && HasExternalId(a) then
      world.(events := world.events - {a.externalId.value}, cancelled := world.cancelled + 1)
    else if !HasExternalId(a) then Create(world, row, posted, false)
    else if a.externalId.value !in world.events then Create(world, row, posted, true)
    else if Changed(world.events[a.externalId.value], body) then
      world.(events := world.events[a.externalId.value := Patched(world.events[a.externalId.value], body)],
             updated := world.updated + 1)
    else world
  }

  function Upto(world: World, rows: seq<Row>, supply: seq<Posted>, n: nat): World
    requires n <= |rows| <= |supply|
  {
    if n == 0 then world else Step(Upto(world, rows, supply, n - 1), rows[n - 1], supply[n - 1])
  }

  class Job {
    var actions: Actions
    var events: Events
    var created: nat
    var updated: nat
    var cancelled: nat

    constructor (actions: Actions, events: Events)
      ensures Now() == World(actions, events, 0, 0, 0)
    {
      this.actions, this.events := actions, events;
      created, updated, cancelled := 0, 0, 0;
    }

    function Now(): World
      reads this
    {
      World(actions, events, created, updated, cancelled)
    }

    method PostEvent(row: Row, posted: Posted, recreated: bool)
      modifies this
      ensures Now() == Create(old(Now()), row, posted, recreated)
    {
      events := events[posted.id := NewEvent(EventForAction(row), posted)];
      actions := UpdateAction(actions, row.id, Linked(row.action, posted, recreated));
      created := created + 1;
    }

    method Run(rows: seq<Row>, supply: seq<Posted>)
      requires |rows| <= |supply|
      modifies this
      ensures Now() == Upto(old(Now()), rows, supply, |rows|)
    {
      for k := 0 to |rows|
        invariant Now() == Upto(old(Now()), rows, supply, k)
      {
        var a := rows[k].action;
        if a.status.Cancelled? && HasExternalId(a) {
          events := events - {a.externalId.value};
          cancelled := cancelled + 1;
          continue;
        }
        var desired := EventForAction(rows[k]);
        if !HasExternalId(a) {
          PostEvent(rows[k], supply[k], false);
          continue;
        }
        if a.externalId.value !in events {
          PostEvent(rows[k], supply[k], true);
          continue;
        }
        var event := events[a.externalId.value];
        if Changed(event, desired) {
          events := events[a.externalId.value := Patched(event, desired)];
          updated := updated + 1;
        }
      }
    }
  }

  // ---- What one run does, action by action ----

  /** No two fetched actions claim the same event. */
  predicate DistinctClaims(rows: seq<Row>) {
    forall i, j :: 0 <= i < j < |rows| && HasExternalId(rows[i].action) && HasExternalId(rows[j].action)
      ==> rows[i].action.externalId != rows[j].action.externalId
  }

  /** The ids the remote side hands out are new to both sides. */
  ghost predicate FreshSupply(world: World, rows: seq<Row>, supply: seq<Posted>) {
    && |rows| <= |supply|
    && (forall i :: 0 <= i < |supply| ==> supply[i].id != "" && supply[i].id !in world.events)
    && (forall i, j :: 0 <= i < j < |supply| ==> supply[i].id != supply[j].id)
    && (forall i, id :: 0 <= i < |supply| && id in world.actions ==> world.actions[id].externalId != Some(supply[i].id))
  }

  datatype Kind = Deletes | Creates | Patches | Keeps

  function KindOf(events: Events, row: Row): Kind {
    if row.action.status.Cancelled? && HasExternalId(row.action) then Deletes
    else if !HasExternalId(row.action) || row.action.externalId.value !in events then Creates
    else if Changed(events[row.action.externalId.value], EventForAction(row)) then Patches
    else Keeps
  }

  /** The event an action ends up with, or had. */
  function EventOf(events: Events, row: Row, posted: Posted): EventId {
    if KindOf(events, row).Creates? then posted.id else row.action.externalId.GetOr("")
  }

  /** What the run leaves behind for one action, in terms of what was there before it. */
  predicate Settled(before: World, after: World, row: Row, posted: Posted) {
    var e := EventOf(before.events, row, posted);
    row.id in after.actions &&
    match KindOf(before.events, row)
    case Deletes => after.actions[row.id] == row.action && e !in after.events
    case Creates => after.actions[row.id] == Linked(row.action, posted, HasExternalId(row.action))
                    && e in after.events && after.events[e] == NewEvent(EventForAction(row), posted)
    case Patches => after.actions[row.id] == row.action && e in before.events
                    && e in after.events && after.events[e] == Patched(before.events[e], EventForAction(row))
    case Keeps => after.actions[row.id] == row.action && e in before.events
                  && e in after.events && after.events[e] == before.events[e]
  }

  /** Where a turn may write: its action's row, its own event, and the id posted for it. */
  lemma StepFrame(world: World, row: Row, posted: Posted)
    ensures var after := Step(world, row, posted);
      && after.actions.Keys == world.actions.Keys
      && (forall id :: id in world.actions && id != row.id ==> after.actions[id] == world.actions[id])
      && (forall e :: e != posted.id && !(HasExternalId(row.action) && row.action.externalId == Some(e)) ==>
            (e in after.events <==> e in world.events) && (e in world.events ==> after.events[e] == world.events[e]))
  {
  }

  predicate SameAt(a: World, b: World, id: ActionId, e: EventId) {
    && (id in a.actions <==> id in b.actions) && (id in a.actions ==> a.actions[id] == b.actions[id])
    && (e in a.events <==> e in b.events) && (e in a.events ==> a.events[e] == b.events[e])
  }

  lemma SettledKept(before: World, w1: World, w2: World, row: Row, posted: Posted)
    requires Settled(before, w1, row, posted)
    requires SameAt(w1, w2, row.id, EventOf(before.events, row, posted))
    ensures Settled(before, w2, row, posted)
  {
  }

  lemma StepSettles(before: World, world: World, row: Row, posted: Posted)
    requires row.id in before.actions && before.actions[row.id] == row.action
    requires SameAt(before, world, row.id, row.action.externalId.GetOr(""))
    ensures Settled(before, Step(world, row, posted), row, posted)
  {
  }

  /** The event turn `i` settled is not the one turn `j` works on. */
  lemma OtherEvent(world: World, rows: seq<Row>, supply: seq<Posted>, i: nat, j: nat)
    requires IsFetch(world.actions, rows) && DistinctClaims(rows) && FreshSupply(world, rows, supply)
    requires i < |rows| && j < |rows| && i != j
    ensures EventOf(world.events, rows[i], supply[i]) != supply[j].id
    ensures HasExternalId(rows[j].action)
        ==> rows[j].action.externalId != Some(EventOf(world.events, rows[i], supply[i]))
    ensures rows[i].id != rows[j].id
  {
    hide Eligible, EventForAction, Changed;
    assert world.actions[rows[i].id] == rows[i].action && world.actions[rows[j].id] == rows[j].action;
  }

  lemma OtherClaim(world: World, rows: seq<Row>, supply: seq<Posted>, i: nat, j: nat)
    requires IsFetch(world.actions, rows) && DistinctClaims(rows) && FreshSupply(world, rows, supply)
    requires i < |rows| && j < |rows| && i != j
    ensures rows[i].action.externalId.GetOr("") != supply[j].id
    ensures HasExternalId(rows[j].action) ==> rows[j].action.externalId != Some(rows[i].action.externalId.GetOr(""))
    ensures rows[i].id != rows[j].id
  {
    hide Eligible;
    assert world.actions[rows[i].id] == rows[i].action;
  }

  ghost predicate Runnable(world: World, rows: seq<Row>, supply: seq<Posted>) {
    |rows| <= |supply| && IsFetch(world.actions, rows) && DistinctClaims(rows) && FreshSupply(world, rows, supply)
  }

  lemma TurnKeepsSettled(world: World, mid: World, rows: seq<Row>, supply: seq<Posted>, i: nat, j: nat)
    requires Runnable(world, rows, supply) && i < |rows| && j < |rows| && i != j
    requires Settled(world, mid, rows[i], supply[i])
    ensures Settled(world, Step(mid, rows[j], supply[j]), rows[i], supply[i])
  {
    hide Settled, Step, EventOf, IsFetch, FreshSupply;
    var e := EventOf(world.events, rows[i], supply[i]);
    OtherEvent(world, rows, supply, i, j);
    StepFrame(mid, rows[j], supply[j]);
    SettledRow(world, mid, rows[i], supply[i]);
    SettledKept(world, mid, Step(mid, rows[j], supply[j]), rows[i], supply[i]);
  }

  lemma SettledRow(before: World, after: World, row: Row, posted: Posted)
    requires Settled(before, after, row, posted)
    ensures row.id in after.actions
  {
  }

  lemma TurnKeepsUntouched(world: World, mid: World, rows: seq<Row>, supply: seq<Posted>, i: nat, j: nat)
    requires Runnable(world, rows, supply) && i < |rows| && j < |rows| && i != j
    requires SameAt(world, mid, rows[i].id, rows[i].action.externalId.GetOr(""))
    ensures SameAt(world, Step(mid, rows[j], supply[j]), rows[i].id, rows[i].action.externalId.GetOr(""))
  {
    hide Step, IsFetch, FreshSupply;
    OtherClaim(world, rows, supply, i, j);
    StepFrame(mid, rows[j], supply[j]);
  }

  /** Turns already taken stay settled; rows and events of turns to come are as they were. */
  lemma {:induction false} UptoSettles(world: World, rows: seq<Row>, supply: seq<Posted>, n: nat)
    requires Runnable(world, rows, supply) && n <= |rows|
    ensures var after := Upto(world, rows, supply, n);
      && (forall i :: 0 <= i < n ==> Settled(world, after, rows[i], supply[i]))
      && (forall i :: n <= i < |rows| ==> SameAt(world, after, rows[i].id, rows[i].action.externalId.GetOr("")))
  {
    hide Settled, Step, SameAt, Eligible;
    if n > 0 {
      UptoSettles(world, rows, supply, n - 1);
      var mid := Upto(world, rows, supply, n - 1);
      assert SameAt(world, mid, rows[n - 1].id, rows[n - 1].action.externalId.GetOr(""));
      StepSettles(world, mid, rows[n - 1], supply[n - 1]);
      forall i | 0 <= i < n - 1 ensures Settled(world, Step(mid, rows[n - 1], supply[n - 1]), rows[i], supply[i]) {
        TurnKeepsSettled(world, mid, rows, supply, i, n - 1);
      }
      forall i | n <= i < |rows|
        ensures SameAt(world, Step(mid, rows[n - 1], supply[n - 1]), rows[i].id, rows[i].action.externalId.GetOr(""))
      {
        TurnKeepsUntouched(world, mid, rows, supply, i, n - 1);
      }
    } else {
      forall i | 0 <= i < |rows| ensures SameAt(world, world, rows[i].id, rows[i].action.externalId.GetOr("")) {
        SameAsSelf(world, rows[i].id, rows[i].action.externalId.GetOr(""));
      }
    }
  }

  lemma SameAsSelf(world: World, id: ActionId, e: EventId)
    ensures SameAt(world, world, id, e)
  {
  }

  predicate Claimed(rows: seq<Row>, e: EventId) {
    exists i :: 0 <= i < |rows| && HasExternalId(rows[i].action) && rows[i].action.externalId == Some(e)
  }

  predicate Handed(supply: seq<Posted>, e: EventId) {
    exists i :: 0 <= i < |supply| && supply[i].id == e
  }

  /** A run writes only the rows it fetched, the events they claim and the events it posts. */
  lemma {:induction false} UptoFrame(world: World, rows: seq<Row>, supply: seq<Posted>, n: nat)
    requires n <= |rows| <= |supply|
    ensures var after := Upto(world, rows, supply, n);
      && after.actions.Keys == world.actions.Keys
      && (forall id :: id in world.actions && (forall i :: 0 <= i < n ==> rows[i].id != id)
            ==> after.actions[id] == world.actions[id])
      && (forall e :: !Claimed(rows, e) && !Handed(supply, e) ==>
            (e in after.events <==> e in world.events) && (e in world.events ==> after.events[e] == world.events[e]))
  {
    hide Step;
    if n > 0 {
      UptoFrame(world, rows, supply, n - 1);
      var mid, row, posted := Upto(world, rows, supply, n - 1), rows[n - 1], supply[n - 1];
      StepFrame(mid, row, posted);
      forall e | !Claimed(rows, e) && !Handed(supply, e)
        ensures e != posted.id && !(HasExternalId(row.action) && row.action.externalId == Some(e))
      {
      }
    }
  }

  function Reconciled(world: World, rows: seq<Row>, supply: seq<Posted>): World
    requires |rows| <= |supply|
  {
    Upto(world, rows, supply, |rows|)
  }

  /** The fields a run never changes. */
  predicate SameTask(a: Action, b: Action) {
    && a.sourceType == b.sourceType && a.sourceId == b.sourceId && a.title == b.title && a.summary == b.summary
    && a.start == b.start && a.end == b.end && a.effortMinutes == b.effortMinutes
  }

  /** The row is untouched, or it was given a new event: then it says so and keeps its task. */
  predicate LinkedOrKept(before: Action, after: Action, posted: Posted) {
    || after == before
    || (SameTask(before, after) && after.provider == Some(GOOGLE) && after.externalId == Some(posted.id)
          && after.status == Scheduled
        && "calendar_html_link" in after.metadata && after.metadata["calendar_html_link"] == posted.link.GetOr("null")
        && (HasExternalId(before) ==> "recreated" in after.metadata && after.metadata["recreated"] == "true"))
  }

  lemma SettledActive(before: World, after: World, row: Row, posted: Posted)
    requires Settled(before, after, row, posted) && Active(row.action) && posted.id != ""
    ensures row.id in after.actions && HasExternalId(after.actions[row.id])
    ensures LinkedOrKept(row.action, after.actions[row.id], posted)
    ensures var e, body := after.actions[row.id].externalId.value, EventForAction(row);
      && e in after.events && !Changed(after.events[e], body)
      && (after.events[e].tag == Some(body.tag) <==>
            !(KindOf(before.events, row).Keeps? && before.events[row.action.externalId.value].tag != Some(body.tag)))
  {
    hide EventForAction;
  }

  /** After one run an active action owns a live event that shows what the action says, and its row
      is as it was or linked to a new event. The tag
      is the action's own unless the run found the event already showing it and left it alone. */
  lemma ActiveOwnsItsEvent(world: World, rows: seq<Row>, supply: seq<Posted>, i: nat)
    requires Runnable(world, rows, supply) && i < |rows| && Active(rows[i].action)
    ensures var after, body := Reconciled(world, rows, supply), EventForAction(rows[i]);
      && rows[i].id in after.actions && HasExternalId(after.actions[rows[i].id])
      && LinkedOrKept(rows[i].action, after.actions[rows[i].id], supply[i])
      && var e := after.actions[rows[i].id].externalId.value;
      && e in after.events && !Changed(after.events[e], body)
      && (after.events[e].tag == Some(body.tag) <==>
            !(KindOf(world.events, rows[i]).Keeps?
              && world.events[rows[i].action.externalId.value].tag != Some(body.tag)))
  {
    hide Upto, Settled, IsFetch, DistinctClaims, LinkedOrKept, Changed, EventForAction;
    UptoSettles(world, rows, supply, |rows|);
    SettledActive(world, Reconciled(world, rows, supply), rows[i], supply[i]);
  }

  /** A cancelled action's event is gone after the run, and the action stays cancelled, if and
      only if its stored event id is not the empty text; with an empty id the run posts a new
      event for it and marks it scheduled. */
  lemma CancelledEventGone(world: World, rows: seq<Row>, supply: seq<Posted>, i: nat)
    requires Runnable(world, rows, supply) && i < |rows| && CancelledRemotely(rows[i].action)
    ensures var after := Reconciled(world, rows, supply);
      && rows[i].id in after.actions
      && ((after.actions[rows[i].id].status.Cancelled?
            && after.actions[rows[i].id].externalId.GetOr("") !in after.events)
          <==> rows[i].action.externalId != Some(""))
  {
    hide Step, EventForAction;
    UptoSettles(world, rows, supply, |rows|);
    assert Settled(world, Reconciled(world, rows, supply), rows[i], supply[i]);
  }

  /** Nothing else moves: rows not fetched, and events neither claimed nor posted. */
  lemma UnrelatedUntouched(world: World, rows: seq<Row>, supply: seq<Posted>)
    requires Runnable(world, rows, supply)
    ensures var after := Reconciled(world, rows, supply);
      && after.actions.Keys == world.actions.Keys
      && (forall id :: id in world.actions && !Eligible(world.actions[id]) ==> after.actions[id] == world.actions[id])
      && (forall e :: !Claimed(rows, e) && !Handed(supply, e) ==>
            (e in after.events <==> e in world.events) && (e in world.events ==> after.events[e] == world.events[e]))
  {
    UptoFrame(world, rows, supply, |rows|);
  }

  /** Where an eligible action stands after a run. */
  predicate AtRest(world: World, row: Row) {
    && HasExternalId(row.action)
    && var e := row.action.externalId.value;
       if row.action.status.Cancelled? then e !in world.events
       else e in world.events && !Changed(world.events[e], EventForAction(row))
  }

  lemma SettledRests(before: World, after: World, row: Row, posted: Posted)
    requires Settled(before, after, row, posted) && Eligible(row.action) && posted.id != ""
    ensures AtRest(after, Row(row.id, after.actions[row.id]))
    ensures SameTask(row.action, after.actions[row.id])
  {
  }

  /** Every row eligible after a run was fetched by it and is at rest. */
  lemma AfterRunAtRest(world: World, rows: seq<Row>, supply: seq<Posted>, id: ActionId) returns (i: nat)
    requires Runnable(world, rows, supply)
    requires id in Reconciled(world, rows, supply).actions && Eligible(Reconciled(world, rows, supply).actions[id])
    ensures i < |rows| && rows[i].id == id
    ensures AtRest(Reconciled(world, rows, supply), Row(id, Reconciled(world, rows, supply).actions[id]))
  {
    hide Step, Settled, AtRest, Eligible, DistinctClaims;
    UptoFrame(world, rows, supply, |rows|);
    UptoSettles(world, rows, supply, |rows|);
    i :| 0 <= i < |rows| && rows[i].id == id;
    SettledRests(world, Reconciled(world, rows, supply), rows[i], supply[i]);
  }

  lemma SettledClaim(before: World, after: World, row: Row, posted: Posted)
    requires Settled(before, after, row, posted) && HasExternalId(after.actions[row.id])
    ensures after.actions[row.id].externalId == Some(EventOf(before.events, row, posted))
  {
    hide EventForAction, Changed;
  }

  lemma DistinctEvents(world: World, rows: seq<Row>, supply: seq<Posted>, i: nat, j: nat)
    requires Runnable(world, rows, supply) && i < |rows| && j < |rows| && i != j
    ensures EventOf(world.events, rows[i], supply[i]) != EventOf(world.events, rows[j], supply[j])
  {
    hide IsFetch, DistinctClaims, FreshSupply, EventForAction, Changed;
    OtherEvent(world, rows, supply, i, j);
  }

  /** The claims of the rows eligible after a run are distinct again. */
  lemma ClaimsStayDistinct(world: World, rows: seq<Row>, supply: seq<Posted>, again: seq<Row>)
    requires Runnable(world, rows, supply) && IsFetch(Reconciled(world, rows, supply).actions, again)
    ensures DistinctClaims(again)
  {
    hide Step, Settled, Eligible, AtRest, EventOf, FreshSupply;
    var after := Reconciled(world, rows, supply);
    UptoSettles(world, rows, supply, |rows|);
    forall k, l | 0 <= k < l < |again| && HasExternalId(again[k].action) && HasExternalId(again[l].action)
      ensures again[k].action.externalId != again[l].action.externalId
    {
      var i := AfterRunAtRest(world, rows, supply, again[k].id);
      var j := AfterRunAtRest(world, rows, supply, again[l].id);
      SettledClaim(world, after, rows[i], supply[i]);
      SettledClaim(world, after, rows[j], supply[j]);
      DistinctEvents(world, rows, supply, i, j);
    }
  }

  lemma {:induction false} RestingRun(world: World, rows: seq<Row>, supply: seq<Posted>, n: nat)
    requires n <= |rows| <= |supply|
    requires forall i :: 0 <= i < |rows| ==> AtRest(world, rows[i])
    ensures var after := Upto(world, rows, supply, n);
      after == world.(cancelled := after.cancelled)
  {
    if n > 0 {
      RestingRun(world, rows, supply, n - 1);
      var mid := Upto(world, rows, supply, n - 1);
      assert AtRest(world, rows[n - 1]);
      assert rows[n - 1].action.status.Cancelled? ==> mid.events - {rows[n - 1].action.externalId.value} == mid.events;
    }
  }

  /** A second run right after the first creates nothing, updates nothing, and leaves the
      calendar and the table exactly as they are. */
  lemma SecondRunChangesNothing(world: World, rows: seq<Row>, supply: seq<Posted>, again: seq<Row>, more: seq<Posted>)
    requires Runnable(world, rows, supply) && |again| <= |more|
    requires IsFetch(Reconciled(world, rows, supply).actions, again)
    ensures var once := Reconciled(world, rows, supply); var twice := Reconciled(once, again, more);
      twice.events == once.events && twice.actions == once.actions && twice.created == once.created
        && twice.updated == once.updated
  {
    hide Step, AtRest, Eligible;
    var once := Reconciled(world, rows, supply);
    forall k | 0 <= k < |again| ensures AtRest(once, again[k]) {
      var i := AfterRunAtRest(world, rows, supply, again[k].id);
      assert again[k] == Row(again[k].id, once.actions[again[k].id]);
    }
    RestingRun(once, again, more, |again|);
  }
}
