/** The tag an action's event carries, over whole histories. */
module CalendarTags {
  import opened Options
  import opened CalendarModel
  import opened CalendarReconcile
  import opened CalendarIngest
  import opened CalendarSync
  import opened CalendarNoEcho

  /** If the task's claimed event is live, it carries exactly the tag a push would give it. */
  ghost predicate TagExact(s: System, id: ActionId)
    requires id in s.actions
  {
    Claims(s.actions[id]) && Live(s, s.target, s.actions[id].externalId.value) ==>
      s.calendars[s.target][s.actions[id].externalId.value].tag == Some(EventForAction(Row(id, s.actions[id])).tag)
  }

  ghost predicate TagsExact(s: System) {
    forall id :: id in s.actions ==> TagExact(s, id)
  }

  /** Edits leave a task's source alone. */
  predicate KeepsSource(s: System, op: Op) {
    op.EditTask? && op.id in s.actions ==>
      op.action.sourceType == s.actions[op.id].sourceType && op.action.sourceId == s.actions[op.id].sourceId
  }

  predicate SameSource(a: Action, b: Action) {
    a.sourceType == b.sourceType && a.sourceId == b.sourceId
  }

  // ---- Imports ----

  lemma {:induction false} ImportsWriteNoTask(actions: Actions, listing: seq<Listed>, hits: seq<Option<ActionId>>,
                                              newIds: seq<ActionId>, n: nat, id: ActionId)
    requires n <= |listing| && n <= |hits| && |listing| <= |newIds|
    requires id in ImportUpto(actions, listing, hits, newIds, n)
        && IsTask(ImportUpto(actions, listing, hits, newIds, n)[id])
    ensures id in actions && actions[id] == ImportUpto(actions, listing, hits, newIds, n)[id]
  {
    hide ImportMetadata, ExternalId, ShouldSkip;
    if n > 0 { ImportsWriteNoTask(actions, listing, hits, newIds, n - 1, id); }
  }

  lemma IngestTagsExact(s: System, op: Op)
    requires TagsExact(s) && op.IngestRun? && Allowed(s, op)
    ensures TagsExact(Apply(s, op))
  {
    hide ImportUpto, AnswersUpto, FreshIds, ListedLive, EventForAction;
    var after := Apply(s, op);
    forall id | id in after.actions ensures TagExact(after, id) {
      if Claims(after.actions[id]) {
        ImportsWriteNoTask(s.actions, op.listing, op.hits, op.newIds, op.turns, id);
        assert TagExact(s, id);
      }
    }
  }

  // ---- Pushes ----

  lemma SourceKept(s: System, op: Op, id: ActionId)
    requires Inv(s) && op.ReconcileRun? && Allowed(s, op) && id in s.actions
    ensures id in Apply(s, op).actions && SameSource(s.actions[id], Apply(s, op).actions[id])
  {
    hide Inv, Upto, IsFetch, FreshSupply, FreshEvents, KindOf;
    var i := RowFate(s, op, id);
  }

  lemma SameTag(id: ActionId, a: Action, b: Action)
    requires SameSource(a, b)
    ensures EventForAction(Row(id, a)).tag == EventForAction(Row(id, b)).tag
  {
  }

  /** A row that was given a new event by the push claims one that was never live before. */
  lemma NewClaimIsFresh(s: System, op: Op, id: ActionId, e: EventId)
    requires Inv(s) && op.ReconcileRun? && Allowed(s, op) && id in s.actions
    requires id in Apply(s, op).actions && Apply(s, op).actions[id].externalId == Some(e) && Live(s, s.target, e)
    ensures Apply(s, op).actions[id] == s.actions[id]
  {
    hide NoColon, ImportsStand, TagsMatch, TasksOwn, Upto, IsFetch;
    RowsAfterPush(s, op, id);
    assert e in s.everLive;
  }

  lemma PushedTagExact(s: System, op: Op, id: ActionId)
    requires Inv(s) && TagsExact(s) && op.ReconcileRun? && Allowed(s, op) && id in s.actions
    requires Inv(Apply(s, op)) && id in Apply(s, op).actions
    ensures TagExact(Apply(s, op), id)
  {
    hide Inv, EventForAction, IsFetch, FreshSupply, FreshEvents, Upto, TagsExact, SameSource;
    var after := Apply(s, op);
    if Claims(after.actions[id]) && Live(after, after.target, after.actions[id].externalId.value) {
      var e := after.actions[id].externalId.value;
      var world := Upto(WorldOf(s), op.rows, op.supply, op.turns);
      PushedEvents(s, op, e);
      if Live(s, s.target, e) && world.events[e] == s.calendars[s.target][e] {
        NewClaimIsFresh(s, op, id, e);
        ExactOf(s, id);
      } else {
        var i :| 0 <= i < |op.rows| && MadeFor(op.rows[i], world, e)
          && (Live(s, s.target, e) || e in Handout(op.supply));
        RowIsTask(s, op, i);
        SourceKept(s, op, op.rows[i].id);
        SoleClaim(after, op.rows[i].id, id, e, s.actions[op.rows[i].id]);
        SameTag(id, s.actions[id], after.actions[id]);
      }
    }
  }

  lemma ExactOf(s: System, id: ActionId)
    requires TagsExact(s) && id in s.actions
    ensures TagExact(s, id)
  {
  }

  /** Two tasks that claim one event are the same task. */
  lemma SoleClaim(s: System, i: ActionId, j: ActionId, e: EventId, was: Action)
    requires Inv(s) && i in s.actions && j in s.actions && Claims(s.actions[j])
    requires IsTask(was) && SameSource(was, s.actions[i])
    requires s.actions[i].externalId == Some(e) && s.actions[j].externalId == Some(e)
    ensures i == j
  {
    hide NoColon, NamesForeign, TagsMatch;
  }

  lemma PushTagsExact(s: System, op: Op)
    requires Inv(s) && TagsExact(s) && op.ReconcileRun? && Allowed(s, op)
    ensures TagsExact(Apply(s, op))
  {
    hide Inv, TagsExact, TagExact, Upto, IsFetch, FreshSupply, FreshEvents;
    StepKeeps(s, op);
    UptoFrame(WorldOf(s), op.rows, op.supply, op.turns);
    forall id | id in Apply(s, op).actions ensures TagExact(Apply(s, op), id) {
      PushedTagExact(s, op, id);
    }
    AllExact(Apply(s, op));
  }

  lemma AllExact(s: System)
    requires forall id :: id in s.actions ==> TagExact(s, id)
    ensures TagsExact(s)
  {
  }

  // ---- Edits ----

  lemma EditTagsExact(s: System, op: Op)
    requires TagsExact(s) && Allowed(s, op) && (op.AddTask? || op.EditTask? || op.DropTask?) && KeepsSource(s, op)
    ensures TagsExact(Apply(s, op))
  {
    var after := Apply(s, op);
    forall id | id in after.actions ensures TagExact(after, id) {
      if id in s.actions { assert TagExact(s, id); }
    }
  }

  lemma RemoteTagsExact(s: System, op: Op)
    requires Inv(s) && TagsExact(s) && Allowed(s, op) && (op.PutEvent? || op.TouchEvent? || op.DropEvent?)
    ensures TagsExact(Apply(s, op))
  {
    hide NoColon, NamesForeign, EventForAction, TagMatches;
    var after := Apply(s, op);
    forall id | id in after.actions ensures TagExact(after, id) {
      assert TagExact(s, id);
      if Claims(s.actions[id]) && Live(s, s.target, s.actions[id].externalId.value) {
        assert Tagged(s.calendars[s.target][s.actions[id].externalId.value]);
      }
    }
  }

  lemma StepTagsExact(s: System, op: Op)
    requires Inv(s) && TagsExact(s) && Allowed(s, op) && KeepsSource(s, op)
    ensures TagsExact(Apply(s, op))
  {
    hide Inv, TagsExact, Apply, Allowed, KeepsSource;
    match op
    case IngestRun(_, _, _, _) => IngestTagsExact(s, op);
    case ReconcileRun(_, _, _) => PushTagsExact(s, op);
    case AddTask(_, _) => EditTagsExact(s, op);
    case EditTask(_, _) => EditTagsExact(s, op);
    case DropTask(_) => EditTagsExact(s, op);
    case PutEvent(_, _, _) => RemoteTagsExact(s, op);
    case TouchEvent(_, _, _) => RemoteTagsExact(s, op);
    case DropEvent(_, _) => RemoteTagsExact(s, op);
  }

  // ---- Histories ----

  ghost predicate SourcesKept(s: System, ops: seq<Op>)
    requires History(s, ops)
    decreases |ops|
  {
    ops == [] || (KeepsSource(s, ops[0]) && SourcesKept(Apply(s, ops[0]), ops[1..]))
  }

  lemma {:induction false} HistoryTagsExact(s: System, ops: seq<Op>)
    requires Inv(s) && TagsExact(s) && History(s, ops) && SourcesKept(s, ops)
    ensures TagsExact(After(s, ops))
    decreases |ops|
  {
    hide Inv, TagsExact, Allowed, Apply, KeepsSource;
    if ops != [] {
      StepKeeps(s, ops[0]);
      StepTagsExact(s, ops[0]);
      HistoryTagsExact(Apply(s, ops[0]), ops[1..]);
    }
  }

  /** As long as no edit changes a task's source, a live event that a task claims carries exactly the
      task's tag; so the comparison's not looking at tags never leaves one stale. */
  lemma ClaimedEventsCarryTheirTag(start: System, ops: seq<Op>, id: ActionId)
    requires Begun(start) && History(start, ops) && SourcesKept(start, ops) && id in After(start, ops).actions
    ensures TagExact(After(start, ops), id)
  {
    BeginningHolds(start);
    HistoryTagsExact(start, ops);
  }

  /** An edit of the source alone leaves the claimed event's tag stale: the push finds nothing
      changed, and keeps the event and its old tag. */
  lemma SourceEditLeavesTagStale(world: World, rows: seq<Row>, supply: seq<Posted>, i: nat, before: Action)
    requires Runnable(world, rows, supply) && i < |rows| && Active(rows[i].action) && HasExternalId(rows[i].action)
    requires rows[i].action == before.(sourceId := rows[i].action.sourceId)
    requires rows[i].action.sourceId.GetOr("") != before.sourceId.GetOr("")
    requires var e := rows[i].action.externalId.value;
      e in world.events && !Changed(world.events[e], EventForAction(Row(rows[i].id, before)))
      && world.events[e].tag == Some(EventForAction(Row(rows[i].id, before)).tag)
    ensures var e := rows[i].action.externalId.value; var after := Reconciled(world, rows, supply);
      e in after.events && after.events[e] == world.events[e]
        && after.events[e].tag != Some(EventForAction(rows[i]).tag)
  {
    hide Upto, IsFetch, DistinctClaims, FreshSupply;
    UptoSettles(world, rows, supply, |rows|);
    assert Settled(world, Reconciled(world, rows, supply), rows[i], supply[i]);
  }
}
