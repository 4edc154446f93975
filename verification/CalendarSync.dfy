/** The two calendar jobs together: what one writes, the other never takes for its own. */
module CalendarSync {
  import opened Options
  import opened CalendarModel
  import opened CalendarReconcile
  import opened CalendarIngest

  /** `target` is the calendar actions are pushed to. The last three fields record history: the
      event ids handed to the push job, the ids ever live in the target, the action ids ever used. */
  datatype System = System(target: CalendarId, actions: Actions, calendars: map<CalendarId, Events>,
                           issued: set<EventId>, everLive: set<EventId>, usedIds: set<ActionId>)

  predicate IsTask(a: Action) {
    a.sourceType != IMPORTED
  }

  predicate Claims(a: Action) {
    IsTask(a) && HasExternalId(a)
  }

  predicate Imported(a: Action) {
    !IsTask(a) && a.externalId.Some?
  }

  ghost predicate Live(s: System, c: CalendarId, e: EventId) {
    c in s.calendars && e in s.calendars[c]
  }

  function OwnerOf(event: RemoteEvent): ActionId
    requires Tagged(event)
  {
    event.tag.value.actionId
  }

  // ---- The invariant ----

  /** Ids are never reused, and event ids are never empty and hold no colon. */
  ghost predicate IdsKnown(s: System) {
    && s.target in s.calendars
    && s.issued <= s.everLive && s.calendars[s.target].Keys <= s.everLive
    && (forall c, e :: Live(s, c, e) ==> NoColon(e))
    && (forall e :: e in s.everLive ==> NoColon(e) && e != "")
    && s.actions.Keys <= s.usedIds && "" !in s.usedIds
  }

  /** Tasks claim only events made for them, each its own. */
  ghost predicate TasksOwn(s: System) {
    && (forall id :: id in s.actions && Claims(s.actions[id]) ==> s.actions[id].externalId.value in s.issued)
    && (forall i, j :: i in s.actions && j in s.actions && i != j && Claims(s.actions[i]) && Claims(s.actions[j])
          ==> s.actions[i].externalId != s.actions[j].externalId)
  }

  /** The row stands for some event the push job did not make. */
  ghost predicate NamesForeign(s: System, a: Action) {
    exists c, e :: Foreign(s, a, c, e)
  }

  ghost predicate Foreign(s: System, a: Action, c: CalendarId, e: EventId) {
    NoColon(e) && a.externalId == Some(ExternalId(c, e)) && (c == s.target ==> e in s.everLive && e !in s.issued)
  }

  /** Imported rows stand for events the push job did not make, one row per event. */
  ghost predicate ImportsStand(s: System) {
    && (forall id :: id in s.actions && Imported(s.actions[id])
          ==> s.actions[id].provider == Some(GOOGLE) && NamesForeign(s, s.actions[id]))
    && (forall i, j :: i in s.actions && j in s.actions && i != j && Imported(s.actions[i]) && Imported(s.actions[j])
          ==> s.actions[i].externalId != s.actions[j].externalId)
  }

  /** Tags sit on events made by the push job in the target, one live event per owner, and a
      living owner claims the event that carries its tag. */
  ghost predicate TagsMatch(s: System) {
    && (forall c, e :: Live(s, c, e) && Tagged(s.calendars[c][e])
          ==> c == s.target && TagMatches(s, e, s.calendars[c][e]))
    && (forall e1, e2 ::
          (Live(s, s.target, e1) && Live(s, s.target, e2)
           && SameOwner(s.calendars[s.target][e1], s.calendars[s.target][e2])) ==> e1 == e2)
    && (forall e :: Live(s, s.target, e) && e in s.issued ==> Tagged(s.calendars[s.target][e]))
  }

  ghost predicate TagMatches(s: System, e: EventId, event: RemoteEvent)
    requires Tagged(event)
  {
    && e in s.issued && OwnerOf(event) in s.usedIds
    && (OwnerOf(event) in s.actions ==> s.actions[OwnerOf(event)].externalId == Some(e))
  }

  predicate SameOwner(a: RemoteEvent, b: RemoteEvent) {
    Tagged(a) && Tagged(b) && OwnerOf(a) == OwnerOf(b)
  }

  ghost predicate Inv(s: System) {
    IdsKnown(s) && TasksOwn(s) && ImportsStand(s) && TagsMatch(s)
  }

  // ---- Everything that can happen ----

  datatype Op =
    /** The first `turns` turns of an import; fewer than all if it broke off. */
    | IngestRun(listing: seq<Listed>, hits: seq<Option<ActionId>>, newIds: seq<ActionId>, turns: nat)
    /** The first `turns` turns of a push. */
    | ReconcileRun(rows: seq<Row>, supply: seq<Posted>, turns: nat)
    | AddTask(id: ActionId, action: Action)
    | EditTask(id: ActionId, action: Action)
    | DropTask(id: ActionId)
    /** Edits made in the remote calendar itself: to untagged events, or leaving the tag alone. */
    | PutEvent(calendar: CalendarId, event: EventId, content: RemoteEvent)
    | TouchEvent(calendar: CalendarId, event: EventId, content: RemoteEvent)
    | DropEvent(calendar: CalendarId, event: EventId)

  function WorldOf(s: System): World
    requires s.target in s.calendars
  {
    World(s.actions, s.calendars[s.target], 0, 0, 0)
  }

  ghost predicate ListedLive(s: System, l: Listed) {
    Live(s, l.calendar, l.id) && s.calendars[l.calendar][l.id] == l.event
  }

  ghost predicate FreshIds(s: System, newIds: seq<ActionId>) {
    && (forall i :: 0 <= i < |newIds| ==> newIds[i] !in s.usedIds && newIds[i] != "")
    && (forall i, j :: 0 <= i < j < |newIds| ==> newIds[i] != newIds[j])
  }

  ghost predicate FreshEvents(s: System, supply: seq<Posted>) {
    forall i :: 0 <= i < |supply| ==> supply[i].id !in s.everLive && NoColon(supply[i].id)
  }

  ghost predicate Allowed(s: System, op: Op) {
    match op
    case IngestRun(listing, hits, newIds, turns) =>
      && turns <= |listing| && turns <= |hits| && |listing| <= |newIds|
      && AnswersUpto(s.actions, listing, hits, newIds, turns)
      && FreshIds(s, newIds)
      && (forall i :: 0 <= i < |listing| ==> ListedLive(s, listing[i]))
    case ReconcileRun(rows, supply, turns) =>
      && s.target in s.calendars && turns <= |rows| <= |supply|
      && IsFetch(s.actions, rows) && FreshSupply(WorldOf(s), rows, supply) && FreshEvents(s, supply)
    case AddTask(id, a) => id !in s.usedIds && id != "" && a.externalId.None?
    case EditTask(id, a) =>
      && id in s.actions && a.provider == s.actions[id].provider && a.externalId == s.actions[id].externalId
      && (IsTask(a) <==> IsTask(s.actions[id]))
    case DropTask(id) => true
    case PutEvent(c, e, event) =>
      && c in s.calendars && NoColon(e) && e != "" && !Tagged(event)
      && (if e in s.calendars[c] then !Tagged(s.calendars[c][e]) else e !in s.issued)
    case TouchEvent(c, e, event) => Live(s, c, e) && Tagged(s.calendars[c][e]) && event.tag == s.calendars[c][e].tag
    case DropEvent(c, e) => c in s.calendars
  }

  ghost function Apply(s: System, op: Op): System
    requires Allowed(s, op)
  {
    match op
    case IngestRun(listing, hits, newIds, turns) =>
      s.(actions := ImportUpto(s.actions, listing, hits, newIds, turns),
         usedIds := s.usedIds + set i | 0 <= i < |newIds| :: newIds[i])
    case ReconcileRun(rows, supply, turns) =>
      var handed := set i | 0 <= i < |supply| :: supply[i].id;
      var after := Upto(WorldOf(s), rows, supply, turns);
      s.(actions := after.actions, calendars := s.calendars[s.target := after.events],
         issued := s.issued + handed, everLive := s.everLive + handed)
    case AddTask(id, a) => s.(actions := s.actions[id := a], usedIds := s.usedIds + {id})
    case EditTask(id, a) => s.(actions := s.actions[id := a])
    case DropTask(id) => s.(actions := s.actions - {id})
    case PutEvent(c, e, event) =>
      s.(calendars := s.calendars[c := s.calendars[c][e := event]],
         everLive := if c == s.target then s.everLive + {e} else s.everLive)
    case TouchEvent(c, e, event) => s.(calendars := s.calendars[c := s.calendars[c][e := event]])
    case DropEvent(c, e) => s.(calendars := s.calendars[c := s.calendars[c] - {e}])
  }

  // ---- Imports keep the invariant ----

  lemma HitIsImported(s: System, id: ActionId, l: Listed)
    requires IdsKnown(s) && TasksOwn(s) && id in s.actions && Stands(s.actions[id], l)
    ensures Imported(s.actions[id])
  {
    ExternalIdHasColon(l.calendar, l.id);
  }

  /** The row an event is imported into. */
  function RowFor(hit: Option<ActionId>, newId: ActionId): ActionId {
    hit.GetOr(newId)
  }

  /** No other imported row stands for the same event. */
  lemma OthersDiffer(s: System, l: Listed, hit: Option<ActionId>, newId: ActionId, other: ActionId)
    requires IdsKnown(s) && TasksOwn(s) && ImportsStand(s) && Answers(s.actions, l, hit)
    requires other in s.actions && other != RowFor(hit, newId) && Imported(s.actions[other])
    ensures s.actions[other].externalId != Some(ExternalId(l.calendar, l.id))
  {
    hide ExternalId, NamesForeign;
    if hit.Some? { HitIsImported(s, hit.value, l); }
  }

  lemma ImportTurnTasks(s: System, l: Listed, hit: Option<ActionId>, newId: ActionId)
    requires IdsKnown(s) && TasksOwn(s) && newId !in s.actions && newId in s.usedIds
    requires !ShouldSkip(l) && Answers(s.actions, l, hit)
    ensures var after := s.(actions := Import(s.actions, l, hit, newId)); IdsKnown(after) && TasksOwn(after)
    ensures forall id :: id in s.actions && IsTask(s.actions[id]) ==>
      id in Import(s.actions, l, hit, newId) && Import(s.actions, l, hit, newId)[id] == s.actions[id]
  {
    hide NoColon, ImportMetadata, NormalizeStart, NormalizeEnd, EventStatus, ExternalId, Stands;
    var after := s.(actions := Import(s.actions, l, hit, newId));
    var id := RowFor(hit, newId);
    if hit.Some? { HitIsImported(s, hit.value, l); }
    assert !IsTask(after.actions[id]);
    assert forall other ::
        other in after.actions && other != id ==> other in s.actions && after.actions[other] == s.actions[other];
    assert forall c, e :: Live(after, c, e) <==> Live(s, c, e);
  }

  /** One imported event: only its own row changes, and that row is no task. */
  lemma ImportTurn(s: System, l: Listed, hit: Option<ActionId>, newId: ActionId)
    requires Inv(s) && ListedLive(s, l) && newId !in s.actions && newId in s.usedIds
    requires ShouldSkip(l) || Answers(s.actions, l, hit)
    requires forall e ::
        Live(s, s.target, e) && Tagged(s.calendars[s.target][e]) ==> OwnerOf(s.calendars[s.target][e]) != newId
    ensures Inv(s.(actions := Import(s.actions, l, hit, newId)))
    ensures forall id :: id in s.actions && IsTask(s.actions[id]) ==>
      id in Import(s.actions, l, hit, newId) && Import(s.actions, l, hit, newId)[id] == s.actions[id]
  {
    if ShouldSkip(l) {
      assert s.(actions := Import(s.actions, l, hit, newId)) == s;
    } else {
      hide IdsKnown, TasksOwn, ImportsStand, TagsMatch, Import, Answers;
      ImportTurnTasks(s, l, hit, newId);
      ImportTurnStands(s, l, hit, newId);
      ImportTurnTags(s, l, hit, newId);
    }
  }

  lemma ImportTurnStands(s: System, l: Listed, hit: Option<ActionId>, newId: ActionId)
    requires Inv(s) && ListedLive(s, l) && !ShouldSkip(l) && Answers(s.actions, l, hit)
    requires newId !in s.actions
    ensures ImportsStand(s.(actions := Import(s.actions, l, hit, newId)))
  {
    hide NoColon, ImportMetadata, NormalizeStart, NormalizeEnd, EventStatus, ExternalId, TagMatches;
    var after := s.(actions := Import(s.actions, l, hit, newId));
    var id := RowFor(hit, newId);
    assert Foreign(after, after.actions[id], l.calendar, l.id) by { assert Live(s, l.calendar, l.id); }
    assert NamesForeign(after, after.actions[id]);
    forall other | other in after.actions && other != id && Imported(after.actions[other])
      ensures after.actions[other].provider == Some(GOOGLE) && NamesForeign(after, after.actions[other])
      ensures after.actions[other].externalId != after.actions[id].externalId
    {
      assert after.actions[other] == s.actions[other];
      OthersDiffer(s, l, hit, newId, other);
      ForeignKept(s, after, s.actions[other]);
    }
  }

  /** A row keeps standing for a foreign event while no new id the push job is handed is an old one. */
  lemma ForeignKept(s: System, after: System, a: Action)
    requires NamesForeign(s, a) && after.target == s.target && s.everLive <= after.everLive
    requires forall e :: e in s.everLive && e in after.issued ==> e in s.issued
    ensures NamesForeign(after, a)
  {
    var c, e :| Foreign(s, a, c, e);
    assert Foreign(after, a, c, e);
  }

  lemma ImportTurnTags(s: System, l: Listed, hit: Option<ActionId>, newId: ActionId)
    requires Inv(s) && !ShouldSkip(l) && Answers(s.actions, l, hit)
    requires forall e ::
        Live(s, s.target, e) && Tagged(s.calendars[s.target][e]) ==> OwnerOf(s.calendars[s.target][e]) != newId
    ensures TagsMatch(s.(actions := Import(s.actions, l, hit, newId)))
  {
    hide NoColon, NamesForeign;
    var after := s.(actions := Import(s.actions, l, hit, newId));
    forall c, e | Live(s, c, e) && Tagged(s.calendars[c][e])
      ensures c == s.target && TagMatches(after, e, s.calendars[c][e])
    {
      var owner := OwnerOf(s.calendars[c][e]);
      assert TagMatches(s, e, s.calendars[c][e]);
      if hit == Some(owner) {
        HitIsImported(s, owner, l);
        ExternalIdHasColon(l.calendar, l.id);
      }
    }
    assert forall c, e :: Live(after, c, e) ==> Live(s, c, e);
  }

  ghost predicate OwnersApart(s: System, newIds: seq<ActionId>) {
    forall e, i :: Live(s, s.target, e) && Tagged(s.calendars[s.target][e]) && 0 <= i < |newIds|
      ==> OwnerOf(s.calendars[s.target][e]) != newIds[i]
  }

  lemma {:induction false} ImportsKeep(s: System, listing: seq<Listed>, hits: seq<Option<ActionId>>,
                                       newIds: seq<ActionId>, n: nat)
    requires n <= |listing| && n <= |hits| && |listing| <= |newIds|
    requires Inv(s) && AnswersUpto(s.actions, listing, hits, newIds, n)
    requires forall i :: 0 <= i < |listing| ==> ListedLive(s, listing[i])
    requires forall i, j :: 0 <= i < j < |newIds| ==> newIds[i] != newIds[j]
    requires forall i :: 0 <= i < |newIds| ==> newIds[i] in s.usedIds && newIds[i] !in s.actions
    requires OwnersApart(s, newIds)
    ensures var after := s.(actions := ImportUpto(s.actions, listing, hits, newIds, n));
      && Inv(after)
      && (forall id :: id in s.actions && IsTask(s.actions[id])
            ==> id in after.actions && after.actions[id] == s.actions[id])
      && (forall i :: n <= i < |newIds| ==> newIds[i] !in after.actions)
  {
    hide Import, Inv, Answers;
    if n == 0 {
      assert s.(actions := ImportUpto(s.actions, listing, hits, newIds, 0)) == s;
    } else {
      ImportsKeep(s, listing, hits, newIds, n - 1);
      var mid := s.(actions := ImportUpto(s.actions, listing, hits, newIds, n - 1));
      var l, hit, newId := listing[n - 1], hits[n - 1], newIds[n - 1];
      assert ListedLive(s, l) && ListedLive(mid, l);
      ImportTurn(mid, l, hit, newId);
      ImportAddsOnly(mid.actions, l, hit, newId);
      var actions := ImportUpto(s.actions, listing, hits, newIds, n);
      assert mid.(actions := Import(mid.actions, l, hit, newId)) == s.(actions := actions);
    }
  }

  lemma ImportAddsOnly(actions: Actions, l: Listed, hit: Option<ActionId>, newId: ActionId)
    requires ShouldSkip(l) || Answers(actions, l, hit)
    ensures forall id :: id in Import(actions, l, hit, newId) ==> id in actions || id == newId
  {
  }

  /** The state with the ids an import may use set aside. */
  ghost function Reserved(s: System, newIds: seq<ActionId>): System {
    s.(usedIds := s.usedIds + set i | 0 <= i < |newIds| :: newIds[i])
  }

  lemma IngestReady(s: System, op: Op)
    requires Inv(s) && op.IngestRun? && Allowed(s, op)
    ensures var s1 := Reserved(s, op.newIds);
      && Inv(s1) && OwnersApart(s1, op.newIds)
      && (forall i :: 0 <= i < |op.newIds| ==> op.newIds[i] in s1.usedIds && op.newIds[i] !in s1.actions)
      && (forall i :: 0 <= i < |op.listing| ==> ListedLive(s1, op.listing[i]))
  {
    hide NoColon, ImportUpto, AnswersUpto, Foreign;
    var s1 := Reserved(s, op.newIds);
    assert ImportsStand(s1) by {
      forall id | id in s1.actions && Imported(s1.actions[id]) ensures NamesForeign(s1, s1.actions[id]) {
        ForeignKept(s, s1, s.actions[id]);
      }
    }
    assert TagsMatch(s1) by {
      forall c, e | Live(s1, c, e) && Tagged(s1.calendars[c][e])
        ensures c == s1.target && TagMatches(s1, e, s1.calendars[c][e])
      {
        assert Live(s, c, e) && TagMatches(s, e, s.calendars[c][e]);
      }
      assert forall e :: Live(s1, s1.target, e) <==> Live(s, s.target, e);
    }
    assert OwnersApart(s1, op.newIds) by {
      forall e, i | Live(s1, s1.target, e) && Tagged(s1.calendars[s1.target][e]) && 0 <= i < |op.newIds|
        ensures OwnerOf(s1.calendars[s1.target][e]) != op.newIds[i]
      {
        assert Live(s, s.target, e) && TagMatches(s, e, s.calendars[s.target][e]);
      }
    }
    assert forall i :: 0 <= i < |op.listing| ==> ListedLive(s, op.listing[i]) && ListedLive(s1, op.listing[i]);
    assert forall c, e :: Live(s1, c, e) <==> Live(s, c, e);
  }

  lemma IngestKeeps(s: System, op: Op)
    requires Inv(s) && op.IngestRun? && Allowed(s, op)
    ensures Inv(Apply(s, op))
    ensures forall id ::
        id in s.actions && IsTask(s.actions[id])
        ==> id in Apply(s, op).actions && Apply(s, op).actions[id] == s.actions[id]
  {
    hide Inv, ImportUpto, AnswersUpto, ListedLive, OwnersApart;
    IngestReady(s, op);
    ImportsKeep(Reserved(s, op.newIds), op.listing, op.hits, op.newIds, op.turns);
  }

  // ---- Pushes keep the invariant ----

  predicate Posts(world: World, row: Row) {
    KindOf(world.events, row).Creates?
  }

  /** Events appear only by being posted, each in the turn of the action it is for. */
  lemma {:induction false} PostedEvents(world: World, rows: seq<Row>, supply: seq<Posted>, n: nat,
                                        e: EventId) returns (k: nat)
    requires n <= |rows| <= |supply|
    requires e in Upto(world, rows, supply, n).events && e !in world.events
    ensures k < n && supply[k].id == e && Posts(Upto(world, rows, supply, k), rows[k])
  {
    hide EventForAction, Changed, Linked, NewEvent, Patched;
    var mid := Upto(world, rows, supply, n - 1);
    if e in mid.events {
      k := PostedEvents(world, rows, supply, n - 1, e);
    } else {
      k := n - 1;
    }
  }

  lemma SameKind(a: World, b: World, row: Row)
    requires SameAt(a, b, row.id, row.action.externalId.GetOr(""))
    ensures KindOf(a.events, row) == KindOf(b.events, row)
  {
  }

  lemma PushRunnable(s: System, op: Op)
    requires Inv(s) && op.ReconcileRun? && Allowed(s, op)
    ensures Runnable(WorldOf(s), op.rows, op.supply)
  {
    hide IdsKnown, TagsMatch, ImportsStand, FreshEvents, FreshSupply;
    forall i, j | 0 <= i < j < |op.rows| && HasExternalId(op.rows[i].action) && HasExternalId(op.rows[j].action)
      ensures op.rows[i].action.externalId != op.rows[j].action.externalId
    {
      assert op.rows[i].id in s.actions && op.rows[j].id in s.actions;
      assert Claims(s.actions[op.rows[i].id]) && Claims(s.actions[op.rows[j].id]);
    }
  }

  /** What a push does to one of its rows. */
  lemma RowAfterPush(s: System, op: Op, i: nat)
    requires Inv(s) && op.ReconcileRun? && Allowed(s, op) && i < |op.rows|
    ensures var before, after := WorldOf(s), Upto(WorldOf(s), op.rows, op.supply, op.turns);
      if i < op.turns then Settled(before, after, op.rows[i], op.supply[i])
      else SameAt(before, after, op.rows[i].id, op.rows[i].action.externalId.GetOr(""))
  {
    hide Settled, SameAt, Inv;
    PushRunnable(s, op);
    UptoSettles(WorldOf(s), op.rows, op.supply, op.turns);
  }

  /** The row was given the event posted in turn `i`. */
  predicate Relinked(s: System, op: Op, i: int, id: ActionId, row: Action)
    requires op.ReconcileRun? && |op.rows| <= |op.supply| && s.target in s.calendars && id in s.actions
  {
    && 0 <= i < |op.rows| && op.rows[i].id == id && IsTask(s.actions[id])
    && KindOf(s.calendars[s.target], op.rows[i]).Creates? && op.rows[i].action == s.actions[id]
    && row == Linked(s.actions[id], op.supply[i], HasExternalId(s.actions[id]))
  }

  lemma SettledFate(before: World, after: World, row: Row, posted: Posted)
    requires Settled(before, after, row, posted)
    ensures row.id in after.actions
    ensures after.actions[row.id] == row.action
            || (KindOf(before.events, row).Creates?
                  && after.actions[row.id] == Linked(row.action, posted, HasExternalId(row.action)))
  {
    hide EventForAction, Changed, Linked, NewEvent, Patched;
  }

  /** What a push does to any row: nothing, or it links a task to a new event. */
  lemma RowFate(s: System, op: Op, id: ActionId) returns (i: int)
    requires Inv(s) && op.ReconcileRun? && Allowed(s, op) && id in s.actions
    ensures var after := Upto(WorldOf(s), op.rows, op.supply, op.turns).actions;
      id in after && (after[id] == s.actions[id] || Relinked(s, op, i, id, after[id]))
  {
    hide Inv, Upto, Settled, Eligible, FreshSupply, FreshEvents, Linked, KindOf;
    UptoFrame(WorldOf(s), op.rows, op.supply, op.turns);
    i := -1;
    if k :| 0 <= k < |op.rows| && op.rows[k].id == id {
      i := k;
      RowIsTask(s, op, k);
      RowAfterPush(s, op, k);
      if k < op.turns {
        SettledFate(WorldOf(s), Upto(WorldOf(s), op.rows, op.supply, op.turns), op.rows[k], op.supply[k]);
      }
    }
  }

  /** A row whose event is live before a push keeps it. */
  lemma LiveClaimKept(s: System, op: Op, a: ActionId, e: EventId)
    requires Inv(s) && op.ReconcileRun? && Allowed(s, op)
    requires a in s.actions && s.actions[a].externalId == Some(e) && e != "" && Live(s, s.target, e)
    ensures var after := Upto(WorldOf(s), op.rows, op.supply, op.turns).actions;
      a in after && after[a] == s.actions[a]
  {
    hide Inv, Upto, IsFetch, FreshSupply, FreshEvents, EventForAction, Changed, Linked;
    var i := RowFate(s, op, a);
  }

  ghost function Handout(supply: seq<Posted>): set<EventId> {
    set i | 0 <= i < |supply| :: supply[i].id
  }

  /** An event live after a push is as it was, or carries the tag of the action that claims it. */
  ghost predicate PushedOk(s: System, op: Op, e: EventId)
    requires op.ReconcileRun? && Allowed(s, op) && e in Upto(WorldOf(s), op.rows, op.supply, op.turns).events
  {
    var after := Upto(WorldOf(s), op.rows, op.supply, op.turns);
    || (Live(s, s.target, e) && after.events[e] == s.calendars[s.target][e])
    || (exists i :: 0 <= i < |op.rows| && MadeFor(op.rows[i], after, e) && (Live(s, s.target, e)
          || e in Handout(op.supply)))
  }

  predicate MadeFor(row: Row, after: World, e: EventId) {
    && e in after.events && after.events[e].tag == Some(EventForAction(row).tag)
    && row.id in after.actions && after.actions[row.id].externalId == Some(e)
  }

  lemma PushedEvents(s: System, op: Op, e: EventId)
    requires Inv(s) && op.ReconcileRun? && Allowed(s, op)
    requires e in Upto(WorldOf(s), op.rows, op.supply, op.turns).events
    ensures PushedOk(s, op, e)
  {
    hide Inv, Eligible, EventForAction, Changed;
    var before, after := WorldOf(s), Upto(WorldOf(s), op.rows, op.supply, op.turns);
    if e !in before.events {
      var k := PostedEvents(before, op.rows, op.supply, op.turns, e);
      PushRunnable(s, op);
      UptoSettles(before, op.rows, op.supply, k);
      SameKind(before, Upto(before, op.rows, op.supply, k), op.rows[k]);
      RowAfterPush(s, op, k);
      assert MadeFor(op.rows[k], after, e);
    } else if i :| 0 <= i < |op.rows| && HasExternalId(op.rows[i].action) && op.rows[i].action.externalId == Some(e) {
      RowAfterPush(s, op, i);
      if i < op.turns && KindOf(before.events, op.rows[i]).Patches? { assert MadeFor(op.rows[i], after, e); }
    } else {
      UptoFrame(before, op.rows, op.supply, op.turns);
      assert !Claimed(op.rows, e);
      assert !Handed(op.supply, e);
    }
  }

  lemma RowIsTask(s: System, op: Op, i: nat)
    requires op.ReconcileRun? && Allowed(s, op) && i < |op.rows|
    ensures op.rows[i].id in s.actions && s.actions[op.rows[i].id] == op.rows[i].action && IsTask(op.rows[i].action)
    ensures EventForAction(op.rows[i]).tag.actionId == op.rows[i].id
  {
  }

  lemma PushKeepsTags(s: System, op: Op, e: EventId)
    requires Inv(s) && op.ReconcileRun? && Allowed(s, op)
    requires Live(Apply(s, op), s.target, e)
    ensures var after := Apply(s, op); var event := after.calendars[s.target][e];
      && (Tagged(event) ==> TagMatches(after, e, event))
      && (e in after.issued ==> Tagged(event))
      && (Tagged(event) && OwnerOf(event) !in s.actions ==> Live(s, s.target, e) && s.calendars[s.target][e] == event)
  {
    hide EventForAction, ImportsStand, FreshSupply, IsFetch, NoColon, Upto, TagMatches;
    var world := Upto(WorldOf(s), op.rows, op.supply, op.turns);
    PushedEvents(s, op, e);
    if Live(s, s.target, e) && world.events[e] == s.calendars[s.target][e] {
      KeptEventTag(s, op, e);
    } else {
      var i :| 0 <= i < |op.rows| && MadeFor(op.rows[i], world, e) && (Live(s, s.target, e) || e in Handout(op.supply));
      MadeEventTag(s, op, e, i);
    }
  }

  lemma KeptEventTag(s: System, op: Op, e: EventId)
    requires Inv(s) && op.ReconcileRun? && Allowed(s, op)
    requires Live(Apply(s, op), s.target, e) && Live(s, s.target, e)
    requires Apply(s, op).calendars[s.target][e] == s.calendars[s.target][e]
    ensures var after := Apply(s, op); var event := after.calendars[s.target][e];
      && (Tagged(event) ==> TagMatches(after, e, event)) && (e in after.issued ==> Tagged(event))
  {
    hide EventForAction, ImportsStand, FreshSupply, IsFetch, NoColon, Upto;
    var event := s.calendars[s.target][e];
    UptoFrame(WorldOf(s), op.rows, op.supply, op.turns);
    if Tagged(event) {
      assert TagMatches(s, e, event);
      if OwnerOf(event) in s.actions { LiveClaimKept(s, op, OwnerOf(event), e); }
    }
    assert e in s.everLive && e !in Handout(op.supply);
  }

  lemma MadeEventTag(s: System, op: Op, e: EventId, i: int)
    requires Inv(s) && op.ReconcileRun? && Allowed(s, op) && Live(Apply(s, op), s.target, e) && 0 <= i < |op.rows|
    requires MadeFor(op.rows[i], Upto(WorldOf(s), op.rows, op.supply, op.turns), e)
    requires Live(s, s.target, e) || e in Handout(op.supply)
    ensures var after := Apply(s, op); var event := after.calendars[s.target][e];
      Tagged(event) && TagMatches(after, e, event) && OwnerOf(event) in s.actions
  {
    hide EventForAction, ImportsStand, TagsMatch, TasksOwn, FreshSupply, IsFetch, NoColon, Upto;
    RowIsTask(s, op, i);
    if Live(s, s.target, e) { ClaimIssued(s, op, i, e); }
  }

  /** A live event a push made its own was the row's before. */
  lemma ClaimIssued(s: System, op: Op, i: nat, e: EventId)
    requires Inv(s) && op.ReconcileRun? && Allowed(s, op) && i < |op.rows| && Live(s, s.target, e)
    requires MadeFor(op.rows[i], Upto(WorldOf(s), op.rows, op.supply, op.turns), e)
    ensures e in s.issued
  {
    hide EventForAction, ImportsStand, TagsMatch, NoColon, Changed;
    RowIsTask(s, op, i);
    RowAfterPush(s, op, i);
    assert e in s.everLive;
    assert Claims(op.rows[i].action) ==> op.rows[i].action.externalId.value in s.issued;
    assert op.supply[i].id !in s.everLive;
  }

  /** How a push leaves a row: imported rows and rows not fetched untouched; a fetched row keeps
      its source type, and its claim unless it was given a new event. */
  lemma RowsAfterPush(s: System, op: Op, id: ActionId)
    requires Inv(s) && op.ReconcileRun? && Allowed(s, op) && id in s.actions
    ensures var after := Apply(s, op).actions;
      && id in after && after[id].sourceType == s.actions[id].sourceType
      && (after[id] == s.actions[id] || (IsTask(s.actions[id]) && exists k ::
            0 <= k < |op.rows| && op.rows[k].id == id && after[id].externalId == Some(op.supply[k].id)))
  {
    hide Inv, Upto, IsFetch, FreshSupply, FreshEvents, KindOf;
    var i := RowFate(s, op, id);
  }

  lemma PushKeepsIds(s: System, op: Op)
    requires Inv(s) && op.ReconcileRun? && Allowed(s, op)
    ensures IdsKnown(Apply(s, op))
  {
    hide NoColon, TasksOwn, ImportsStand, TagsMatch, EventForAction, IsFetch;
    var after, world := Apply(s, op), Upto(WorldOf(s), op.rows, op.supply, op.turns);
    UptoFrame(WorldOf(s), op.rows, op.supply, op.turns);
    forall e | e in world.events ensures e in after.everLive {
      if e !in s.calendars[s.target] {
        var k := PostedEvents(WorldOf(s), op.rows, op.supply, op.turns, e);
      }
    }
    forall c, e | Live(after, c, e) ensures NoColon(e) {
      if c == s.target { assert e in after.everLive; } else { assert Live(s, c, e); }
    }
  }

  lemma PushKeepsTasks(s: System, op: Op)
    requires Inv(s) && op.ReconcileRun? && Allowed(s, op)
    ensures TasksOwn(Apply(s, op))
  {
    hide NoColon, ImportsStand, TagsMatch, Upto, IsFetch, IdsKnown;
    var after := Apply(s, op);
    UptoFrame(WorldOf(s), op.rows, op.supply, op.turns);
    forall id | id in after.actions && Claims(after.actions[id])
      ensures after.actions[id].externalId.value in after.issued
    {
      RowsAfterPush(s, op, id);
    }
    forall i, j | i in after.actions && j in after.actions && i != j && Claims(after.actions[i])
      && Claims(after.actions[j])
      ensures after.actions[i].externalId != after.actions[j].externalId
    {
      RowsAfterPush(s, op, i);
      RowsAfterPush(s, op, j);
    }
  }

  lemma PushKeepsImports(s: System, op: Op)
    requires Inv(s) && op.ReconcileRun? && Allowed(s, op)
    ensures ImportsStand(Apply(s, op))
  {
    hide NoColon, TagsMatch, TasksOwn, Upto, IsFetch, FreshSupply, NamesForeign;
    var after := Apply(s, op);
    UptoFrame(WorldOf(s), op.rows, op.supply, op.turns);
    forall id | id in after.actions && Imported(after.actions[id])
      ensures after.actions[id] == s.actions[id]
      ensures after.actions[id].provider == Some(GOOGLE) && NamesForeign(after, after.actions[id])
    {
      RowsAfterPush(s, op, id);
      ForeignKept(s, after, s.actions[id]);
    }
  }

  lemma ReconcileKeeps(s: System, op: Op)
    requires Inv(s) && op.ReconcileRun? && Allowed(s, op)
    ensures Inv(Apply(s, op))
  {
    PushKeepsIds(s, op);
    PushKeepsTasks(s, op);
    PushKeepsImports(s, op);
    PushKeepsTagsAll(s, op);
  }

  lemma PushedTag(s: System, op: Op, c: CalendarId, e: EventId)
    requires Inv(s) && op.ReconcileRun? && Allowed(s, op)
    requires Live(Apply(s, op), c, e) && Tagged(Apply(s, op).calendars[c][e])
    ensures c == s.target && TagMatches(Apply(s, op), e, Apply(s, op).calendars[c][e])
  {
    hide NoColon, ImportsStand, TasksOwn, Upto, IsFetch, FreshSupply, FreshEvents, TagMatches;
    assert Live(s, c, e) || c == s.target;
    PushKeepsTags(s, op, e);
  }

  lemma PushKeepsTagsAll(s: System, op: Op)
    requires Inv(s) && op.ReconcileRun? && Allowed(s, op)
    ensures TagsMatch(Apply(s, op))
  {
    hide NoColon, ImportsStand, TasksOwn, Upto, IsFetch, FreshSupply, FreshEvents, IdsKnown;
    var after := Apply(s, op);
    assert s.target in s.calendars;
    UptoFrame(WorldOf(s), op.rows, op.supply, op.turns);
    forall c, e | Live(after, c, e) && Tagged(after.calendars[c][e])
      ensures c == s.target && TagMatches(after, e, after.calendars[c][e])
    {
      PushedTag(s, op, c, e);
    }
    forall e | Live(after, s.target, e) && e in after.issued ensures Tagged(after.calendars[s.target][e]) {
      PushKeepsTags(s, op, e);
    }
    forall e1, e2 | Live(after, s.target, e1) && Live(after, s.target, e2)
      && SameOwner(after.calendars[s.target][e1], after.calendars[s.target][e2])
      ensures e1 == e2
    {
      PushKeepsTags(s, op, e1);
      PushKeepsTags(s, op, e2);
    }
  }

  // ---- Other operations ----

  predicate KeptLink(a: Action, b: Action) {
    b.externalId == a.externalId && b.provider == a.provider && (IsTask(a) <==> IsTask(b))
  }

  /** Rows keep their claim and origin, or are new and claim nothing; the remote side is as it was. */
  ghost predicate RowsKept(s: System, after: System) {
    && after == s.(actions := after.actions, usedIds := after.usedIds) && s.usedIds <= after.usedIds
    && (forall id :: id in after.actions && id in s.usedIds
          ==> id in s.actions && KeptLink(s.actions[id], after.actions[id]))
    && (forall id :: id in after.actions && id !in s.usedIds
          ==> id in after.usedIds && after.actions[id].externalId.None?)
    && "" !in after.usedIds
  }

  lemma EditShape(s: System, op: Op)
    requires IdsKnown(s) && Allowed(s, op) && (op.AddTask? || op.EditTask? || op.DropTask?)
    ensures RowsKept(s, Apply(s, op))
  {
    hide NoColon;
  }

  lemma EditsKeep(s: System, op: Op)
    requires Inv(s) && Allowed(s, op) && (op.AddTask? || op.EditTask? || op.DropTask?)
    ensures Inv(Apply(s, op))
  {
    hide IdsKnown, TasksOwn, ImportsStand, TagsMatch, RowsKept, Apply, Allowed;
    EditShape(s, op);
    RowsKeptIds(s, Apply(s, op));
    RowsKeptImports(s, Apply(s, op));
    RowsKeptTags(s, Apply(s, op));
  }

  lemma RowsKeptIds(s: System, after: System)
    requires IdsKnown(s) && TasksOwn(s) && RowsKept(s, after)
    ensures IdsKnown(after) && TasksOwn(after)
  {
    hide NoColon;
    assert forall c, e :: Live(after, c, e) <==> Live(s, c, e);
  }

  lemma RowsKeptImports(s: System, after: System)
    requires IdsKnown(s) && ImportsStand(s) && RowsKept(s, after)
    ensures ImportsStand(after)
  {
    hide NoColon, NamesForeign;
    forall id | id in after.actions && Imported(after.actions[id])
      ensures id in s.actions && KeptLink(s.actions[id], after.actions[id]) && NamesForeign(after, after.actions[id])
    {
      NamesKept(s, after, s.actions[id], after.actions[id]);
    }
  }

  lemma NamesKept(s: System, after: System, a: Action, b: Action)
    requires NamesForeign(s, a) && b.externalId == a.externalId && after.target == s.target
    requires s.everLive <= after.everLive && after.issued == s.issued
    ensures NamesForeign(after, b)
  {
    hide NoColon;
    var c, e :| Foreign(s, a, c, e);
    assert Foreign(after, b, c, e);
  }

  lemma RowsKeptTags(s: System, after: System)
    requires IdsKnown(s) && TagsMatch(s) && RowsKept(s, after)
    ensures TagsMatch(after)
  {
    hide NoColon;
    assert forall c, e :: Live(after, c, e) <==> Live(s, c, e);
    forall c, e | Live(after, c, e) && Tagged(after.calendars[c][e])
      ensures c == after.target && TagMatches(after, e, after.calendars[c][e])
    {
      assert TagMatches(s, e, s.calendars[c][e]);
    }
  }

  /** Live events keep their tags; any other live event has none and was not made by a push. */
  ghost predicate EventsKept(s: System, after: System) {
    && after == s.(calendars := after.calendars, everLive := after.everLive) && s.everLive <= after.everLive
    && s.target in after.calendars && after.calendars[s.target].Keys <= after.everLive
    && (forall c, e :: Live(after, c, e) ==> KeptTag(s, after, c, e) || Untagged(s, after, c, e))
    && (forall e :: e in after.everLive && e !in s.everLive ==> NoColon(e) && e != "" && e !in s.issued)
  }

  ghost predicate KeptTag(s: System, after: System, c: CalendarId, e: EventId)
    requires Live(after, c, e)
  {
    Live(s, c, e) && s.calendars[c][e].tag == after.calendars[c][e].tag
  }

  ghost predicate Untagged(s: System, after: System, c: CalendarId, e: EventId)
    requires Live(after, c, e)
  {
    NoColon(e) && !Tagged(after.calendars[c][e]) && (c == s.target ==> e !in s.issued)
  }

  lemma RemoteShape(s: System, op: Op)
    requires Inv(s) && Allowed(s, op) && (op.PutEvent? || op.TouchEvent? || op.DropEvent?)
    ensures EventsKept(s, Apply(s, op))
  {
    hide NoColon, ImportsStand, TasksOwn;
    var after := Apply(s, op);
    forall c, e | Live(after, c, e) ensures KeptTag(s, after, c, e) || Untagged(s, after, c, e) {
      assert Live(s, c, e) || (op.PutEvent? && c == op.calendar && e == op.event);
    }
  }

  lemma RemoteEditsKeep(s: System, op: Op)
    requires Inv(s) && Allowed(s, op) && (op.PutEvent? || op.TouchEvent? || op.DropEvent?)
    ensures Inv(Apply(s, op))
  {
    hide IdsKnown, TasksOwn, ImportsStand, TagsMatch, EventsKept, Apply, Allowed;
    RemoteShape(s, op);
    EventsKeptIds(s, Apply(s, op));
    EventsKeptImports(s, Apply(s, op));
    EventsKeptTags(s, Apply(s, op));
  }

  lemma EventsKeptIds(s: System, after: System)
    requires IdsKnown(s) && TasksOwn(s) && EventsKept(s, after)
    ensures IdsKnown(after) && TasksOwn(after)
  {
    hide NoColon;
    forall c, e | Live(after, c, e) ensures NoColon(e) {
      assert KeptTag(s, after, c, e) || Untagged(s, after, c, e);
    }
  }

  lemma EventsKeptImports(s: System, after: System)
    requires ImportsStand(s) && EventsKept(s, after)
    ensures ImportsStand(after)
  {
    hide NoColon, NamesForeign;
    forall id | id in after.actions && Imported(after.actions[id]) ensures NamesForeign(after, after.actions[id]) {
      NamesKept(s, after, s.actions[id], s.actions[id]);
    }
  }

  lemma EventsKeptTags(s: System, after: System)
    requires TagsMatch(s) && EventsKept(s, after)
    ensures TagsMatch(after)
  {
    hide NoColon;
    forall c, e | Live(after, c, e) && Tagged(after.calendars[c][e])
      ensures c == after.target && TagMatches(after, e, after.calendars[c][e])
      ensures KeptTag(s, after, c, e)
    {
      assert KeptTag(s, after, c, e);
      assert TagMatches(s, e, s.calendars[c][e]);
    }
    forall e | Live(after, s.target, e) && e in after.issued ensures Tagged(after.calendars[s.target][e]) {
      assert KeptTag(s, after, s.target, e);
    }
  }

  /** Every operation, in any order and however it breaks off, keeps the invariant. */
  lemma StepKeeps(s: System, op: Op)
    requires Inv(s) && Allowed(s, op)
    ensures Inv(Apply(s, op))
  {
    match op
    case IngestRun(_, _, _, _) => IngestKeeps(s, op);
    case ReconcileRun(_, _, _) => ReconcileKeeps(s, op);
    case AddTask(_, _) => EditsKeep(s, op);
    case EditTask(_, _) => EditsKeep(s, op);
    case DropTask(_) => EditsKeep(s, op);
    case PutEvent(_, _, _) => RemoteEditsKeep(s, op);
    case TouchEvent(_, _, _) => RemoteEditsKeep(s, op);
    case DropEvent(_, _) => RemoteEditsKeep(s, op);
  }
}
