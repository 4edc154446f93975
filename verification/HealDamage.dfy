/** The damage a room's rows show, and what a successful heal leaves of it. */
module HealDamage {
  import opened Options
  import opened Timestamps
  import opened MatrixAdapter
  import opened HistoryWalk
  import opened WalkProperties
  import opened RoomIngest
  import opened IngestRuns
  import opened HealSchedule
  import StableSort

  // ---- The damage query ----

  function UndecryptedIds(events: map<string, IngestEvent>): set<string> {
    set id | id in events && events[id].contentText == "[undecrypted]"
  }

  /** What the query over a room's stored rows answers: how many read "[undecrypted]", and the time
      of the latest of them. */
  ghost predicate Surveys(events: map<string, IngestEvent>, stats: Stats) {
    && stats.count == |UndecryptedIds(events)|
    && (stats.latestEventTsMs.None? <==> UndecryptedIds(events) == {})
    && (forall id :: id in UndecryptedIds(events) ==>
          Dated(events[id]) && stats.latestEventTsMs.Some? && SentAt(events[id]) <= stats.latestEventTsMs.value)
    && (stats.latestEventTsMs.Some? ==>
          exists id :: id in UndecryptedIds(events)
                       && Dated(events[id]) && SentAt(events[id]) == stats.latestEventTsMs.value)
  }

  // ---- After a heal ----

  /** The entry came encrypted and without text, or its text is just what such a row reads. */
  predicate ShownUndecrypted(raw: RawEvent) {
    Ingestable(raw) && (raw.body == "[undecrypted]" || (raw.body == "" && raw.eventType == "m.room.encrypted"))
  }

  /** A row is what its entry among those shown parses to. */
  predicate AsShown(events: map<string, IngestEvent>, raw: RawEvent, self: Option<string>) {
    Ingestable(raw) ==> raw.eventId.value in events && events[raw.eventId.value] == ParseTimelineEvent(raw, self).value
  }

  ghost predicate HasEntry(view: seq<RawEvent>, id: string) {
    exists raw :: raw in view && Ingestable(raw) && raw.eventId == Some(id)
  }

  /** No two entries to store on a timeline's pages share an id. */
  lemma SameIdSameEntry(server: Server, facts: seq<Fact>, a: RawEvent, b: RawEvent)
    requires Timeline(facts) && Serves(server, facts)
    requires a in Flatten(server.pages) && b in Flatten(server.pages)
    requires Ingestable(a) && Ingestable(b) && a.eventId == b.eventId
    ensures a == b
  {
    hide MatrixAdapter.ShouldIngestEvent;
    var view := Flatten(server.pages);
    var i :| 0 <= i < |view| && view[i] == a;
    var j :| 0 <= j < |view| && view[j] == b;
    assert Shows(view[i], facts[|facts| - 1 - i]) && Shows(view[j], facts[|facts| - 1 - j]);
  }

  lemma SortedMembers(found: seq<IngestEvent>)
    ensures forall e :: e in StableSort.Sort(Earlier, found) <==> e in found
  {
    var sorted := StableSort.Sort(Earlier, found);
    StableSort.SortMembers(Earlier, found);
    forall e ensures e in sorted <==> e in found {
      assert e in sorted <==> e in multiset(sorted);
      assert e in found <==> e in multiset(found);
    }
  }

  /** A walk finds an event for every entry to store past its cutoff, and only what entries parse to. */
  lemma WalkFinds(server: Server, self: Option<string>, cutoff: Option<nat>, facts: seq<Fact>, raw: RawEvent)
    requires Timeline(facts) && Serves(server, facts) && History(server, self, cutoff).Ok?
    ensures forall e :: e in History(server, self, cutoff).value ==>
      e.rawEvent in Flatten(server.pages) && ParseTimelineEvent(e.rawEvent, self) == Some(e)
    ensures raw in Flatten(server.pages) && Ingestable(raw) && !TooOld(raw, cutoff) ==>
      exists e :: e in History(server, self, cutoff).value && e.externalId == raw.eventId.value
  {
    hide MatrixAdapter.ParseTimelineEvent, MatrixAdapter.Dated, HistoryWalk.WalkFrom, HistoryWalk.Collect;
    hide Timeline, MatrixAdapter.ShouldIngestEvent, HistoryWalk.TooOld, WalkProperties.Flatten, Shows, FourDigitYears;
    ServedInOrder(server, facts);
    assert forall p :: 0 <= p < |server.pages| ==> server.pages[p] != [];
    hide Serves, WalkProperties.NewestFirst, IdKept;
    StopLosesNothing(server, self, cutoff);
    var view := Flatten(server.pages);
    var found := Collect(view, self, cutoff);
    var sorted := StableSort.Sort(Earlier, found);
    SortedMembers(found);
    DedupKeepsIds(None, sorted);
    forall e | e in History(server, self, cutoff).value
      ensures e.rawEvent in view && ParseTimelineEvent(e.rawEvent, self) == Some(e)
    {
      CollectMembers(view, self, cutoff, e);
    }
    if raw in view && Ingestable(raw) && !TooOld(raw, cutoff) {
      var e := ParseTimelineEvent(raw, self).value;
      CollectMembers(view, self, cutoff, e);
      var k := Survivor(e, Finish(found));
    }
  }

  lemma ShownRow(table: map<string, IngestEvent>, events: seq<IngestEvent>, server: Server, self: Option<string>,
                 facts: seq<Fact>, raw: RawEvent)
    requires Timeline(facts) && Serves(server, facts) && raw in Flatten(server.pages) && Ingestable(raw)
    requires forall e ::
        e in events ==> e.rawEvent in Flatten(server.pages) && ParseTimelineEvent(e.rawEvent, self) == Some(e)
    requires exists e :: e in events && e.externalId == raw.eventId.value
    ensures AsShown(UpsertEvents(table, events), raw, self)
  {
    hide Serves, Timeline, WalkProperties.Flatten;
    UpsertedRows(table, events);
    var after := UpsertEvents(table, events);
    var e :| e in events && e.externalId == raw.eventId.value;
    var row := after[e.externalId];
    assert row in events && row.externalId == e.externalId;
    SameIdSameEntry(server, facts, row.rawEvent, raw);
  }

  /** Right after a run whose fetch succeeds, every entry past its cutoff has the row it parses to. */
  lemma FetchedRowsAreAsShown(room: Room, tick: Tick, raw: RawEvent)
    requires Inv(room) && Possible(room, tick) && Fetched(room.db, tick.run).Ok?
    requires raw in Flatten(tick.run.server.pages) && !TooOld(raw, Cutoff(room.db, tick.run))
    ensures AsShown(Next(room, tick).db.events, raw, tick.run.self)
  {
    hide MatrixAdapter.ParseTimelineEvent, MatrixAdapter.Dated, HistoryWalk.History, AsShown, UpsertEvents, TooOld;
    var facts, run := room.facts + tick.arrivals, tick.run;
    var found := Fetched(room.db, run).value;
    if found != [] { StoredEvents(room.db, run, found); }
    WalkFinds(run.server, run.self, Cutoff(room.db, run), facts, raw);
    if Ingestable(raw) {
      ShownRow(room.db.events, found, run.server, run.self, facts, raw);
    } else {
      NothingToShow(Next(room, tick).db.events, raw, run.self);
    }
  }

  /** Right after a run whose fetch succeeds, every row has an entry to store among those served. */
  lemma RowsHaveEntries(room: Room, tick: Tick, id: string)
    requires Inv(room) && Possible(room, tick) && Fetched(room.db, tick.run).Ok?
    requires id in Next(room, tick).db.events
    ensures HasEntry(Flatten(tick.run.server.pages), id)
  {
    hide Fetched, Ingested, Possible, HasEntry;
    var facts := room.facts + tick.arrivals;
    StepKeeps(room, tick);
    assert Next(room, tick).facts[..|facts|] == facts;
    var f := FactNamed(id, facts);
    EntryOf(tick.run.server, facts, f) by { PossibleServes(room, tick); }
  }

  lemma PossibleServes(room: Room, tick: Tick)
    requires Possible(room, tick)
    ensures Serves(tick.run.server, room.facts + tick.arrivals)
  {
  }

  /** Right after a heal whose walk succeeds, every row is what the server showed in that run. */
  lemma HealedRowsAreAsShown(room: Room, tick: Tick)
    requires Inv(room) && Possible(room, tick) && tick.run.heal && Fetched(room.db, tick.run).Ok?
    ensures var events, view := Next(room, tick).db.events, Flatten(tick.run.server.pages);
      && (forall raw :: raw in view ==> AsShown(events, raw, tick.run.self))
      && (forall id :: id in events ==> HasEntry(view, id))
  {
    hide Inv, Possible, Fetched, AsShown, HasEntry, WalkProperties.Flatten, Next;
    var events, view := Next(room, tick).db.events, Flatten(tick.run.server.pages);
    forall raw | raw in view ensures AsShown(events, raw, tick.run.self) {
      FetchedRowsAreAsShown(room, tick, raw);
    }
    forall id | id in events ensures HasEntry(view, id) {
      RowsHaveEntries(room, tick, id);
    }
  }

  lemma NothingToShow(events: map<string, IngestEvent>, raw: RawEvent, self: Option<string>)
    requires !Ingestable(raw)
    ensures AsShown(events, raw, self)
  {
  }

  lemma EntryOf(server: Server, facts: seq<Fact>, f: Fact)
    requires Serves(server, facts) && f in facts && f.ingestable
    ensures HasEntry(Flatten(server.pages), f.id)
  {
    var view := Flatten(server.pages);
    var k :| 0 <= k < |facts| && facts[k] == f;
    assert Shows(view[|facts| - 1 - k], facts[|facts| - 1 - (|facts| - 1 - k)]);
    assert view[|facts| - 1 - k] in view;
  }

  function ShownIds(view: seq<RawEvent>): set<string> {
    set i | 0 <= i < |view| && ShownUndecrypted(view[i]) :: view[i].eventId.value
  }

  lemma UndecryptedWhenShown(events: map<string, IngestEvent>, raw: RawEvent, self: Option<string>)
    requires Ingestable(raw) && AsShown(events, raw, self)
    ensures raw.eventId.value in UndecryptedIds(events) <==> ShownUndecrypted(raw)
  {
    hide MatrixAdapter.ParseTimelineEvent, MatrixAdapter.ShouldIngestEvent;
    UndecryptedRows(raw, self);
  }

  lemma SameDamage(events: map<string, IngestEvent>, view: seq<RawEvent>, self: Option<string>)
    requires forall raw :: raw in view ==> AsShown(events, raw, self)
    requires forall id :: id in events ==> HasEntry(view, id)
    ensures UndecryptedIds(events) == ShownIds(view)
  {
    hide AsShown, MatrixAdapter.ShouldIngestEvent, UndecryptedIds;
    forall id | id in UndecryptedIds(events) ensures id in ShownIds(view) {
      UndecryptedAreRows(events, id);
      var raw :| raw in view && Ingestable(raw) && raw.eventId == Some(id);
      UndecryptedWhenShown(events, raw, self);
      var i :| 0 <= i < |view| && view[i] == raw;
    }
    forall i | 0 <= i < |view| && ShownUndecrypted(view[i]) ensures view[i].eventId.value in UndecryptedIds(events) {
      assert view[i] in view;
      UndecryptedWhenShown(events, view[i], self);
    }
  }

  lemma UndecryptedAreRows(events: map<string, IngestEvent>, id: string)
    requires id in UndecryptedIds(events)
    ensures id in events
  {
  }

  /** So the damage a successful heal leaves is just the entries the server still showed encrypted;
      with none of those the room is not due again, whatever its records and the clock say. */
  lemma HealLeavesUndecrypted(room: Room, tick: Tick, stats: Stats)
    requires Inv(room) && Possible(room, tick) && tick.run.heal && Fetched(room.db, tick.run).Ok?
    requires Surveys(Next(room, tick).db.events, stats)
    ensures UndecryptedIds(Next(room, tick).db.events) == ShownIds(Flatten(tick.run.server.pages))
    ensures stats.count == |ShownIds(Flatten(tick.run.server.pages))|
    ensures ShownIds(Flatten(tick.run.server.pages)) == {} ==>
      forall cfg, imported, metadata, now :: !ShouldHeal(cfg, imported, metadata, stats, now)
  {
    hide Next, Inv, Possible, Fetched, Cutoff, AsShown, HasEntry, UndecryptedIds, ShownIds, WalkProperties.Flatten;
    HealedRowsAreAsShown(room, tick);
    SameDamage(Next(room, tick).db.events, Flatten(tick.run.server.pages), tick.run.self);
  }
}
