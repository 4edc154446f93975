/** What holds of the two calendar jobs over whole histories, and where they come to rest. */
module CalendarNoEcho {
  import opened Options
  import opened CalendarModel
  import opened CalendarReconcile
  import opened CalendarIngest
  import opened CalendarSync

  // ---- Histories ----

  /** Before either job ever ran: no rows, nothing posted, no event with a tag. */
  ghost predicate Begun(s: System) {
    && s.target in s.calendars && s.actions == map[] && s.issued == {} && s.usedIds == {}
    && s.everLive == s.calendars[s.target].Keys
    && (forall c, e :: Live(s, c, e) ==> NoColon(e) && e != "" && !Tagged(s.calendars[c][e]))
  }

  ghost predicate History(s: System, ops: seq<Op>)
    decreases |ops|
  {
    ops == [] || (Allowed(s, ops[0]) && History(Apply(s, ops[0]), ops[1..]))
  }

  ghost function After(s: System, ops: seq<Op>): System
    requires History(s, ops)
    decreases |ops|
  {
    if ops == [] then s else After(Apply(s, ops[0]), ops[1..])
  }

  lemma {:induction false} HistoryKeeps(s: System, ops: seq<Op>)
    requires Inv(s) && History(s, ops)
    ensures Inv(After(s, ops))
    decreases |ops|
  {
    hide Inv, Allowed, Apply;
    if ops != [] {
      StepKeeps(s, ops[0]);
      HistoryKeeps(Apply(s, ops[0]), ops[1..]);
    }
  }

  lemma BeginningHolds(s: System)
    requires Begun(s)
    ensures Inv(s)
  {
    hide NoColon;
    assert forall e :: e in s.everLive ==> Live(s, s.target, e);
  }

  // ---- No echo ----

  /** No imported row names an event the push job made. */
  ghost predicate NoEchoedRow(s: System) {
    forall id, e :: id in s.actions && Imported(s.actions[id]) && e in s.issued
      ==> s.actions[id].externalId != Some(ExternalId(s.target, e))
  }

  /** Each event has at most one row imported from it. */
  ghost predicate OneRowPerEvent(s: System) {
    forall i, j, c, e :: RowOf(s, i, c, e) && RowOf(s, j, c, e) ==> i == j
  }

  ghost predicate RowOf(s: System, id: ActionId, c: CalendarId, e: EventId) {
    id in s.actions && Imported(s.actions[id]) && s.actions[id].externalId == Some(ExternalId(c, e))
  }

  /** Each action id tags at most one live event, over all calendars. */
  ghost predicate OneEventPerTag(s: System) {
    forall c1, e1, c2, e2 :: Live(s, c1, e1) && Live(s, c2, e2) && SameOwner(s.calendars[c1][e1], s.calendars[c2][e2])
      ==> c1 == c2 && e1 == e2
  }

  lemma EchoedRow(s: System, id: ActionId, e: EventId)
    requires IdsKnown(s) && ImportsStand(s) && id in s.actions && Imported(s.actions[id]) && e in s.issued
    ensures s.actions[id].externalId != Some(ExternalId(s.target, e))
  {
    hide NoColon, ExternalId;
    var c, f :| Foreign(s, s.actions[id], c, f);
    if ExternalId(c, f) == ExternalId(s.target, e) {
      ExternalIdInjective(c, f, s.target, e);
    }
  }

  /** After any history of imports, pushes and edits, however the runs broke off. */
  lemma NoEcho(start: System, ops: seq<Op>)
    requires Begun(start) && History(start, ops)
    ensures var s := After(start, ops); NoEchoedRow(s) && OneRowPerEvent(s) && OneEventPerTag(s)
  {
    hide Begun, Apply, Allowed, NoColon, ExternalId, IsTask;
    BeginningHolds(start);
    HistoryKeeps(start, ops);
    var s := After(start, ops);
    forall id, e | id in s.actions && Imported(s.actions[id]) && e in s.issued
      ensures s.actions[id].externalId != Some(ExternalId(s.target, e))
    {
      EchoedRow(s, id, e);
    }
  }

  /** Imported rows, events without a tag and other calendars are as they were, and no event without
      a tag is new. */
  ghost predicate ForeignLeft(s: System, after: System) {
    && (forall id :: id in s.actions && Imported(s.actions[id])
          ==> id in after.actions && after.actions[id] == s.actions[id])
    && (forall c, e :: Live(s, c, e) && !Tagged(s.calendars[c][e]) ==> SameEvent(s, after, c, e))
    && (forall c, e :: Live(after, c, e) && !Tagged(after.calendars[c][e]) ==> SameEvent(s, after, c, e))
    && (forall c :: c in s.calendars && c != s.target ==> c in after.calendars && after.calendars[c] == s.calendars[c])
  }

  ghost predicate SameEvent(s: System, after: System, c: CalendarId, e: EventId) {
    Live(s, c, e) && Live(after, c, e) && after.calendars[c][e] == s.calendars[c][e]
  }

  /** A push never changes an imported row, nor an event without a tag, nor another calendar. */
  lemma PushLeavesForeign(start: System, ops: seq<Op>, op: Op)
    requires Begun(start) && History(start, ops) && op.ReconcileRun? && Allowed(After(start, ops), op)
    ensures ForeignLeft(After(start, ops), Apply(After(start, ops), op))
  {
    hide Begun, Inv, Allowed, Apply, ForeignLeft;
    BeginningHolds(start);
    HistoryKeeps(start, ops);
    PushFrame(After(start, ops), op);
  }

  lemma PushFrame(s: System, op: Op)
    requires Inv(s) && op.ReconcileRun? && Allowed(s, op)
    ensures ForeignLeft(s, Apply(s, op))
  {
    hide Inv, Upto, IsFetch, FreshSupply, FreshEvents;
    var after := Apply(s, op);
    forall id | id in s.actions && Imported(s.actions[id])
      ensures id in after.actions && after.actions[id] == s.actions[id]
    {
      RowsAfterPush(s, op, id);
    }
    forall c, e | Live(s, c, e) && !Tagged(s.calendars[c][e]) ensures SameEvent(s, after, c, e) {
      if c == s.target { UntaggedKept(s, op, e); }
    }
    forall c, e | Live(after, c, e) && !Tagged(after.calendars[c][e]) ensures SameEvent(s, after, c, e) {
      if c == s.target { UntaggedOld(s, op, e); }
    }
  }

  lemma ClaimedIsIssued(s: System, op: Op, e: EventId)
    requires Inv(s) && op.ReconcileRun? && Allowed(s, op) && Claimed(op.rows, e)
    ensures e in s.issued
  {
    hide NoColon, NamesForeign, TagsMatch, Eligible;
    var i :| 0 <= i < |op.rows| && HasExternalId(op.rows[i].action) && op.rows[i].action.externalId == Some(e);
    RowIsTask(s, op, i);
    assert Claims(s.actions[op.rows[i].id]);
  }

  lemma UntaggedKept(s: System, op: Op, e: EventId)
    requires Inv(s) && op.ReconcileRun? && Allowed(s, op) && Live(s, s.target, e) && !Tagged(s.calendars[s.target][e])
    ensures Live(Apply(s, op), s.target, e) && Apply(s, op).calendars[s.target][e] == s.calendars[s.target][e]
  {
    hide NoColon, NamesForeign, Upto, Eligible, TagMatches;
    UptoFrame(WorldOf(s), op.rows, op.supply, op.turns);
    assert e in s.everLive && e !in s.issued;
    if Claimed(op.rows, e) { ClaimedIsIssued(s, op, e); }
    assert !Handed(op.supply, e);
  }

  lemma UntaggedOld(s: System, op: Op, e: EventId)
    requires Inv(s) && op.ReconcileRun? && Allowed(s, op)
    requires Live(Apply(s, op), s.target, e) && !Tagged(Apply(s, op).calendars[s.target][e])
    ensures Live(s, s.target, e) && Apply(s, op).calendars[s.target][e] == s.calendars[s.target][e]
  {
    hide Inv, NoColon, Upto, EventForAction, IsFetch, FreshSupply, FreshEvents;
    PushedEvents(s, op, e);
    var world := Upto(WorldOf(s), op.rows, op.supply, op.turns);
    if !(Live(s, s.target, e) && world.events[e] == s.calendars[s.target][e]) {
      var i :| 0 <= i < |op.rows| && MadeFor(op.rows[i], world, e) && (Live(s, s.target, e) || e in Handout(op.supply));
      RowIsTask(s, op, i);
      RealIds(s, op.rows[i].id);
    }
  }

  lemma RealIds(s: System, id: ActionId)
    requires Inv(s) && id in s.actions
    ensures id != ""
  {
  }

  /** The table without its imported rows. */
  function TasksOnly(actions: Actions): Actions {
    map id | id in actions && IsTask(actions[id]) :: actions[id]
  }

  lemma {:induction false} EventsIgnoreTable(a: World, b: World, rows: seq<Row>, supply: seq<Posted>, n: nat)
    requires n <= |rows| <= |supply| && a.events == b.events
    ensures Upto(a, rows, supply, n).events == Upto(b, rows, supply, n).events
  {
    hide EventForAction, Changed, NewEvent, Patched, Linked;
    if n > 0 { EventsIgnoreTable(a, b, rows, supply, n - 1); }
  }

  /** No imported row causes a remote write: were they not in the table at all, the same push could
      happen, fetching the same rows, and every calendar would come out the same. */
  lemma ImportedRowsCauseNoWrite(s: System, op: Op)
    requires op.ReconcileRun? && Allowed(s, op)
    ensures var bare := s.(actions := TasksOnly(s.actions));
      Allowed(bare, op) && Apply(bare, op).calendars == Apply(s, op).calendars
  {
    hide Upto, NoColon;
    var bare := s.(actions := TasksOnly(s.actions));
    assert IsFetch(bare.actions, op.rows);
    EventsIgnoreTable(WorldOf(s), WorldOf(bare), op.rows, op.supply, op.turns);
  }

  /** What a push writes of an action, an import would read back: were the tag taken off, the row
      made of the event would show the action's title, summary and times. An empty title reads back
      as untitled, a missing start as the epoch, and an action without an end gets one by its effort,
      or an hour. */
  lemma PushedEventReadsBack(row: Row, posted: Posted, calendar: CalendarId, name: Option<string>)
    ensures var a, start := row.action, row.action.start.GetOr(0);
      var event := NewEvent(EventForAction(row), posted).(tag := None);
      var back := ImportedRow(None, Listed(calendar, name, posted.id, event));
      && back.title == (if a.title == "" then "(Untitled event)" else a.title)
      && back.summary == NonEmpty(a.summary) && back.start == Some(start) && back.end.Some?
      && (a.end.Some? ==> back.end == a.end)
      && (a.end.None? && a.effortMinutes.GetOr(0) == 0 ==> back.end.value == start + 60 * MINUTE_MS)
      && (a.end.None? && a.effortMinutes.GetOr(0) != 0 ==> back.end.value == start + a.effortMinutes.value * MINUTE_MS)
      && back.status == Scheduled
  {
  }

  // ---- At rest ----

  /** An importable event's row already says what the import would write. */
  ghost predicate InPlace(actions: Actions, l: Listed) {
    exists id :: RowShows(actions, id, l)
  }

  predicate RowShows(actions: Actions, id: ActionId, l: Listed) {
    id in actions && Stands(actions[id], l) && actions[id] == ImportedRow(Some(actions[id]), l)
  }

  /** A listing names each calendar in one way. */
  predicate NamedOnce(listing: seq<Listed>) {
    forall i, j :: 0 <= i < |listing| && 0 <= j < |listing| && listing[i].calendar == listing[j].calendar
      ==> listing[i].calendarSummary == listing[j].calendarSummary
  }

  ghost predicate Unambiguous(listing: seq<Listed>) {
    forall i, j :: 0 <= i < |listing| && 0 <= j < |listing| && !ShouldSkip(listing[i]) && !ShouldSkip(listing[j])
      && ExternalId(listing[i].calendar, listing[i].id) == ExternalId(listing[j].calendar, listing[j].id)
      ==> listing[i] == listing[j]
  }

  lemma ListingUnambiguous(s: System, listing: seq<Listed>)
    requires IdsKnown(s) && NamedOnce(listing)
    requires forall i :: 0 <= i < |listing| ==> ListedLive(s, listing[i])
    ensures Unambiguous(listing)
  {
    hide ExternalId, NoColon, ShouldSkip;
    forall i, j | 0 <= i < |listing| && 0 <= j < |listing| && !ShouldSkip(listing[i]) && !ShouldSkip(listing[j])
      && ExternalId(listing[i].calendar, listing[i].id) == ExternalId(listing[j].calendar, listing[j].id)
      ensures listing[i] == listing[j]
    {
      assert ListedLive(s, listing[i]) && ListedLive(s, listing[j]);
      ExternalIdInjective(listing[i].calendar, listing[i].id, listing[j].calendar, listing[j].id);
    }
  }

  lemma ImportShows(actions: Actions, l: Listed, hit: Option<ActionId>, newId: ActionId)
    requires !ShouldSkip(l) && Answers(actions, l, hit)
    ensures RowShows(Import(actions, l, hit, newId), RowFor(hit, newId), l)
  {
    hide ImportedRow, ExternalId;
    ImportIdempotent(if hit.Some? then Some(actions[hit.value]) else None, l);
    StandsWritten(if hit.Some? then Some(actions[hit.value]) else None, l);
  }

  lemma StandsWritten(existing: Option<Action>, l: Listed)
    ensures Stands(ImportedRow(existing, l), l)
  {
  }

  /** Importing one event leaves the rows of the others as they were. */
  lemma ImportKeepsShown(actions: Actions, l: Listed, hit: Option<ActionId>, newId: ActionId, m: Listed, id: ActionId)
    requires ShouldSkip(l) || Answers(actions, l, hit)
    requires newId !in actions && RowShows(actions, id, m)
    requires !ShouldSkip(l) ==> ExternalId(l.calendar, l.id) != ExternalId(m.calendar, m.id)
    ensures RowShows(Import(actions, l, hit, newId), id, m)
  {
    hide ImportedRow, ExternalId;
  }

  /** A full import leaves every event it listed in place. */
  lemma {:induction false} ImportsInPlace(s: System, listing: seq<Listed>, hits: seq<Option<ActionId>>,
                                          newIds: seq<ActionId>, n: nat, k: nat)
    requires k < n <= |listing| && n <= |hits| && |listing| <= |newIds|
    requires Inv(s) && AnswersUpto(s.actions, listing, hits, newIds, n) && Unambiguous(listing)
    requires forall i :: 0 <= i < |listing| ==> ListedLive(s, listing[i])
    requires forall i, j :: 0 <= i < j < |newIds| ==> newIds[i] != newIds[j]
    requires forall i :: 0 <= i < |newIds| ==> newIds[i] in s.usedIds && newIds[i] !in s.actions
    requires OwnersApart(s, newIds) && !ShouldSkip(listing[k])
    ensures InPlace(ImportUpto(s.actions, listing, hits, newIds, n), listing[k])
  {
    hide Inv, Import, RowShows, ShouldSkip, ExternalId, Answers;
    var mid := ImportUpto(s.actions, listing, hits, newIds, n - 1);
    var l, hit, newId := listing[n - 1], hits[n - 1], newIds[n - 1];
    ImportsKeep(s, listing, hits, newIds, n - 1);
    if !ShouldSkip(l) && ExternalId(l.calendar, l.id) == ExternalId(listing[k].calendar, listing[k].id) {
      ImportShows(mid, l, hit, newId);
      assert RowShows(Import(mid, l, hit, newId), RowFor(hit, newId), listing[k]);
    } else {
      assert k < n - 1;
      ImportsInPlace(s, listing, hits, newIds, n - 1, k);
      var id :| RowShows(mid, id, listing[k]);
      ImportKeepsShown(mid, l, hit, newId, listing[k], id);
    }
  }

  /** Importing an event that is in place writes nothing new. */
  lemma ImportInPlace(s: System, l: Listed, hit: Option<ActionId>, newId: ActionId)
    requires Inv(s) && (ShouldSkip(l) || (Answers(s.actions, l, hit) && InPlace(s.actions, l)))
    ensures Import(s.actions, l, hit, newId) == s.actions
  {
    hide ImportedRow, ExternalId, NamesForeign, NoColon, TagsMatch;
    if !ShouldSkip(l) {
      var id :| RowShows(s.actions, id, l);
      HitIsImported(s, id, l);
      HitIsImported(s, hit.value, l);
      assert s.actions[hit.value].externalId == s.actions[id].externalId;
    }
  }

  lemma {:induction false} ImportsInPlaceChangeNothing(s: System, listing: seq<Listed>,
                                                       hits: seq<Option<ActionId>>, newIds: seq<ActionId>, n: nat)
    requires n <= |listing| && n <= |hits| && |listing| <= |newIds|
    requires Inv(s) && AnswersUpto(s.actions, listing, hits, newIds, n)
    requires forall i :: 0 <= i < |listing| && !ShouldSkip(listing[i]) ==> InPlace(s.actions, listing[i])
    ensures ImportUpto(s.actions, listing, hits, newIds, n) == s.actions
  {
    hide Inv, Import, InPlace, ShouldSkip, Answers;
    if n > 0 {
      ImportsInPlaceChangeNothing(s, listing, hits, newIds, n - 1);
      ImportInPlace(s, listing[n - 1], hits[n - 1], newIds[n - 1]);
    }
  }

  /** An import of a whole listing, and a push of everything eligible, each run to its end. */
  ghost predicate FullImport(s: System, op: Op) {
    op.IngestRun? && Allowed(s, op) && op.turns == |op.listing| && NamedOnce(op.listing)
  }

  ghost predicate FullPush(s: System, op: Op) {
    op.ReconcileRun? && Allowed(s, op) && op.turns == |op.rows|
  }

  ghost predicate AllInPlace(actions: Actions, listing: seq<Listed>) {
    forall l :: l in listing && !ShouldSkip(l) ==> InPlace(actions, l)
  }

  lemma FullImportPlaces(s: System, op: Op)
    requires Inv(s) && FullImport(s, op)
    ensures AllInPlace(Apply(s, op).actions, op.listing)
  {
    hide Inv, IdsKnown, InPlace, ShouldSkip, ImportUpto, AnswersUpto, NamedOnce, Unambiguous, OwnersApart, NoColon;
    IngestReady(s, op);
    var s1, after := Reserved(s, op.newIds), Apply(s, op);
    assert IdsKnown(s) by { InvParts(s); }
    ListingUnambiguous(s, op.listing);
    forall l | l in op.listing && !ShouldSkip(l) ensures InPlace(after.actions, l) {
      var k :| 0 <= k < |op.listing| && op.listing[k] == l;
      ImportsInPlace(s1, op.listing, op.hits, op.newIds, |op.listing|, k);
    }
  }

  lemma InvParts(s: System)
    requires Inv(s)
    ensures IdsKnown(s)
  {
  }

  lemma FullImportRests(s: System, op: Op)
    requires Inv(s) && FullImport(s, op) && AllInPlace(s.actions, op.listing)
    ensures Apply(s, op).actions == s.actions && Apply(s, op).calendars == s.calendars
  {
    hide Inv, InPlace, ShouldSkip, ImportUpto, AnswersUpto, ListedLive, FreshIds;
    forall i | 0 <= i < |op.listing| && !ShouldSkip(op.listing[i]) ensures InPlace(s.actions, op.listing[i]) {
      assert op.listing[i] in op.listing;
    }
    ImportsInPlaceChangeNothing(s, op.listing, op.hits, op.newIds, |op.listing|);
  }

  /** A push leaves imported rows where the import put them. */
  lemma PushKeepsPlaces(s: System, listing: seq<Listed>, op: Op)
    requires Inv(s) && AllInPlace(s.actions, listing) && op.ReconcileRun? && Allowed(s, op)
    ensures AllInPlace(Apply(s, op).actions, listing)
  {
    hide Inv, Upto, IsFetch, FreshSupply, FreshEvents, ImportedRow, NoColon;
    PushFrame(s, op);
    var after := Apply(s, op);
    forall l | l in listing && !ShouldSkip(l) ensures InPlace(after.actions, l) {
      var id :| RowShows(s.actions, id, l);
      ShownIsImported(s, id, l);
      assert RowShows(after.actions, id, l);
    }
  }

  lemma ShownIsImported(s: System, id: ActionId, l: Listed)
    requires Inv(s) && RowShows(s.actions, id, l)
    ensures Imported(s.actions[id])
  {
    hide NamesForeign, TagsMatch, ImportedRow;
    HitIsImported(s, id, l);
  }

  /** The listing shows the same event of the same calendar, under the same calendar name. */
  predicate Mentions(listing: seq<Listed>, l: Listed) {
    exists i :: 0 <= i < |listing| && listing[i] == l.(event := listing[i].event)
  }

  /** Every importable event of the second listing was in the first. */
  predicate ListedBefore(first: seq<Listed>, second: seq<Listed>) {
    forall l :: l in second && !ShouldSkip(l) ==> Mentions(first, l)
  }

  /** Between two imports with only a push between, an event listed again is just as it was. */
  lemma ListedAgain(s: System, import1: Op, push1: Op, import2: Op)
    requires Inv(s) && FullImport(s, import1) && Inv(Apply(s, import1)) && FullPush(Apply(s, import1), push1)
    requires FullImport(Apply(Apply(s, import1), push1), import2) && ListedBefore(import1.listing, import2.listing)
    ensures forall l :: l in import2.listing && !ShouldSkip(l) ==> l in import1.listing
  {
    hide Inv, Upto, ImportUpto, AnswersUpto, FreshIds, IsFetch, FreshSupply, FreshEvents, NamedOnce;
    var s1 := Apply(s, import1);
    PushFrame(s1, push1);
    var s2 := Apply(s1, push1);
    forall l | l in import2.listing && !ShouldSkip(l) ensures l in import1.listing {
      var i :| 0 <= i < |import1.listing| && import1.listing[i] == l.(event := import1.listing[i].event);
      assert ListedLive(s, import1.listing[i]) && ListedLive(s2, l);
      assert Live(s1, l.calendar, l.id);
      assert import1.listing[i] == l;
    }
  }

  lemma FetchedRow(actions: Actions, rows: seq<Row>, k: nat)
    requires IsFetch(actions, rows) && k < |rows|
    ensures rows[k].id in actions && actions[rows[k].id] == rows[k].action && Eligible(rows[k].action)
    ensures rows[k] == Row(rows[k].id, actions[rows[k].id])
  {
  }

  lemma SameRest(a: World, b: World, row: Row)
    requires AtRest(a, row) && a.events == b.events
    ensures AtRest(b, row)
  {
  }

  /** With no edit from outside, one import and one push bring both sides to rest: a second import
      and push, whatever ids they are offered, change neither the table nor any calendar, provided
      the second import lists no importable event the first did not. What window the listings cover,
      and how many events they hold, is free. */
  lemma OneCycleIsFixpoint(start: System, ops: seq<Op>, import1: Op, push1: Op, import2: Op, push2: Op)
    requires Begun(start) && History(start, ops)
    requires FullImport(After(start, ops), import1)
    requires FullPush(Apply(After(start, ops), import1), push1)
    requires FullImport(Apply(Apply(After(start, ops), import1), push1), import2)
    requires ListedBefore(import1.listing, import2.listing)
    requires FullPush(Apply(Apply(Apply(After(start, ops), import1), push1), import2), push2)
    ensures var once := Apply(Apply(After(start, ops), import1), push1);
            var twice := Apply(Apply(once, import2), push2);
      twice.actions == once.actions && twice.calendars == once.calendars
  {
    hide Begun, History, After, Inv, Apply, Allowed, AllInPlace, ListedBefore, NamedOnce;
    BeginningHolds(start);
    HistoryKeeps(start, ops);
    var s := After(start, ops);
    var s1 := Apply(s, import1);
    var s2 := Apply(s1, push1);
    var s3 := Apply(s2, import2);
    StepKeeps(s, import1);
    FullImportPlaces(s, import1);
    StepKeeps(s1, push1);
    PushKeepsPlaces(s1, import1.listing, push1);
    ListedAgain(s, import1, push1, import2);
    FewerInPlace(s2.actions, import1.listing, import2.listing);
    FullImportRests(s2, import2);
    StepKeeps(s2, import2);
    SameTarget(s1, push1);
    SameTarget(s2, import2);
    RestsAfterImport(s1, push1, s3, push2);
  }

  lemma FewerInPlace(actions: Actions, first: seq<Listed>, second: seq<Listed>)
    requires AllInPlace(actions, first) && forall l :: l in second && !ShouldSkip(l) ==> l in first
    ensures AllInPlace(actions, second)
  {
    hide InPlace;
  }

  lemma SameTarget(s: System, op: Op)
    requires Allowed(s, op)
    ensures Apply(s, op).target == s.target
  {
    hide Upto, ImportUpto;
  }

  lemma RestsAfterImport(s: System, op: Op, s3: System, again: Op)
    requires Inv(s) && FullPush(s, op) && FullPush(s3, again)
    requires s3.actions == Apply(s, op).actions && s3.calendars == Apply(s, op).calendars && s3.target == s.target
    ensures Apply(s3, again).actions == s3.actions && Apply(s3, again).calendars == s3.calendars
  {
    hide Inv, Upto, IsFetch, FreshEvents, FreshSupply, AtRest;
    var world := WorldOf(s);
    PushRunnable(s, op);
    forall k | 0 <= k < |again.rows| ensures AtRest(WorldOf(s3), again.rows[k]) {
      FetchedRow(s3.actions, again.rows, k);
      var i := AfterRunAtRest(world, op.rows, op.supply, again.rows[k].id);
      SameRest(Reconciled(world, op.rows, op.supply), WorldOf(s3), again.rows[k]);
    }
    RestingRun(WorldOf(s3), again.rows, again.supply, |again.rows|);
    assert s3.calendars[s3.target := s3.calendars[s3.target]] == s3.calendars;
  }
}
