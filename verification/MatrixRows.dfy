/** What the stored rows of a room say, in terms of what the server sent. */
module MatrixRows {
  import opened Options
  import opened Timestamps
  import opened MatrixAdapter
  import opened HistoryWalk
  import opened WalkProperties
  import opened RoomIngest
  import opened IngestRuns
  import opened HealDamage

  ghost predicate Mentions(text: string, word: string) {
    exists before, after :: text == before + word + after
  }

  lemma ContainsMentions(text: string, word: string)
    ensures Contains(text, word) <==> Mentions(text, word)
  {
    if i :| 0 <= i <= |text| && word <= text[i..] {
      assert text == text[..i] + word + text[i + |word|..];
    }
    if before, after :| text == before + word + after {
      assert text[|before|..] == word + after;
      assert word <= text[|before|..];
    }
  }

  /** Messages, encrypted or not, are taken, and whatever names the bridge software; of the other types
      those of the room's own state and of the protocol's drafts are not, and the rest are. */
  lemma TypesTaken(raw: RawEvent, self: Option<string>)
    requires raw.Raw? && raw.eventId.Some? && raw.serverTs.Some?
    ensures raw.eventType == "m.room.message" ==> ParseTimelineEvent(raw, self).Some?
    ensures raw.eventType == "m.room.encrypted" ==> ParseTimelineEvent(raw, self).Some?
    ensures Mentions(raw.eventType, "beeper") ==> ParseTimelineEvent(raw, self).Some?
    ensures raw.eventType !in ["m.room.message", "m.room.encrypted"] && !Mentions(raw.eventType, "beeper") ==>
      (ParseTimelineEvent(raw, self).None? <==> "m.room." <= raw.eventType || "org.matrix" <= raw.eventType)
  {
    ContainsMentions(raw.eventType, "beeper");
  }

  /** The row of an event carries its sender, its side and its text; what came without text is named
      for what it is. */
  lemma RowSays(raw: RawEvent, self: Option<string>)
    requires ParseTimelineEvent(raw, self).Some?
    ensures var e, message := ParseTimelineEvent(raw, self).value, raw.eventType == "m.room.message";
            var spoken := raw.decrypted && raw.msgtype in ["m.text", "m.notice", "m.emote"];
      && e.senderId == raw.sender && (e.isInbound <==> self != Some(raw.sender))
      && (raw.body != "" ==> e.contentText == raw.body)
      && (raw.body == "" ==>
            && (raw.eventType == "m.room.encrypted" ==> e.contentText == "[undecrypted]")
            && (message && spoken ==> e.contentText == "[message]")
            && (message && !spoken && raw.msgtype == "" ==> e.contentText == "[non-text message]")
            && (message && !spoken && raw.msgtype != "" ==> e.contentText == "[non-text message: " + raw.msgtype + "]")
            && (!message && raw.eventType != "m.room.encrypted" ==>
                  e.contentText == "[custom event: " + raw.eventType + "]"))
  {
  }

  /** How the event was classified, which the counts in the room's metadata add up. */
  lemma ClassedAs(raw: RawEvent, self: Option<string>)
    requires ParseTimelineEvent(raw, self).Some?
    ensures var e, message := ParseTimelineEvent(raw, self).value, raw.eventType == "m.room.message";
      && (e.classification.Undecrypted? <==> raw.eventType == "m.room.encrypted")
      && (e.classification.PlainText? <==> message && !raw.decrypted)
      && (e.classification.DecryptedText? <==>
            message && raw.decrypted && raw.msgtype in ["m.text", "m.notice", "m.emote"])
      && (e.classification.UnsupportedCustom? <==> !message && raw.eventType != "m.room.encrypted")
  {
  }

  // ---- Over runs ----

  /** An entry with an id, a time and a type worth keeping. */
  ghost predicate Keepable(raw: RawEvent) {
    && raw.Raw? && raw.eventId.Some? && raw.serverTs.Some?
    && (|| raw.eventType == "m.room.message" || raw.eventType == "m.room.encrypted"
        || Mentions(raw.eventType, "beeper")
        || !("m.room." <= raw.eventType || "org.matrix" <= raw.eventType))
  }

  lemma KeepableIsTaken(raw: RawEvent)
    ensures Keepable(raw) <==> Ingestable(raw)
  {
    hide Contains, Mentions;
    if raw.Raw? && raw.eventId.Some? && raw.serverTs.Some? {
      TypesTaken(raw, None);
    }
  }

  ghost predicate Kept(view: seq<RawEvent>, id: string) {
    exists raw :: raw in view && Keepable(raw) && raw.eventId == Some(id)
  }

  lemma EntryIsKept(view: seq<RawEvent>, id: string)
    requires HasEntry(view, id)
    ensures Kept(view, id)
  {
    hide Mentions, Contains;
    var raw :| raw in view && Ingestable(raw) && raw.eventId == Some(id);
    KeepableIsTaken(raw);
  }

  /** A served entry to store is one of the room's, so it has its row once a fetch succeeds. */
  lemma EntryHasRow(room: Room, tick: Tick, raw: RawEvent)
    requires Inv(room) && Possible(room, tick) && Fetched(room.db, tick.run).Ok?
    requires raw in Flatten(tick.run.server.pages) && Ingestable(raw)
    ensures var events := Next(room, tick).db.events;
      raw.eventId.value in events && events[raw.eventId.value].occurredAt == Render(raw.serverTs.value)
  {
    hide Fetched, Ingested, MatrixAdapter.ShouldIngestEvent, Timestamps.Render, Timeline, Inv;
    var facts, view := room.facts + tick.arrivals, Flatten(tick.run.server.pages);
    StepKeeps(room, tick);
    assert Next(room, tick).facts[..|facts|] == facts;
    var i :| 0 <= i < |view| && view[i] == raw;
    var f := facts[|facts| - 1 - i];
    assert Shows(view[i], f) && f in facts;
    RowOfFact(Next(room, tick), f);
  }

  lemma RowOfFact(room: Room, f: Fact)
    requires Inv(room) && room.seen <= |room.facts| && f in room.facts[..room.seen] && f.ingestable
    ensures RowOf(room.db.events, f)
  {
  }

  /** Over any sequence of runs, right after one whose fetch succeeds: an id has a row if and only if an
      entry of that id was served with a time and a type worth keeping. */
  lemma StoredIds(ticks: seq<Tick>, id: string)
    requires AllPossible(ticks) && ticks != []
    requires Fetched(Exec(ticks[..|ticks| - 1]).db, ticks[|ticks| - 1].run).Ok?
    ensures id in Exec(ticks).db.events <==> Kept(Flatten(ticks[|ticks| - 1].run.server.pages), id)
  {
    hide Inv, Possible, Next, Fetched, Mentions, Contains, HasEntry, WalkProperties.Flatten;
    var room, tick := Exec(ticks[..|ticks| - 1]), ticks[|ticks| - 1];
    var view := Flatten(tick.run.server.pages);
    ExecKeeps(ticks[..|ticks| - 1]);
    if id in Exec(ticks).db.events {
      RowsHaveEntries(room, tick, id);
      EntryIsKept(view, id);
    }
    if raw :| raw in view && Keepable(raw) && raw.eventId == Some(id) {
      KeepableIsTaken(raw);
      EntryHasRow(room, tick, raw);
    }
  }

  /** The row of a message served in the last run, whatever the run, carries the message's time; and if the
      message is newer than the run's cutoff, or the room was healed, its sender, its side and its text. */
  lemma MessageStored(ticks: seq<Tick>, raw: RawEvent)
    requires AllPossible(ticks) && ticks != []
    requires Fetched(Exec(ticks[..|ticks| - 1]).db, ticks[|ticks| - 1].run).Ok?
    requires raw in Flatten(ticks[|ticks| - 1].run.server.pages)
    requires raw.Raw? && raw.eventId.Some? && raw.serverTs.Some? && raw.eventType == "m.room.message"
    ensures var events, run := Exec(ticks).db.events, ticks[|ticks| - 1].run;
            var cutoff := Cutoff(Exec(ticks[..|ticks| - 1]).db, run);
      && raw.eventId.value in events
      && var e := events[raw.eventId.value];
      && e.occurredAt == Render(raw.serverTs.value)
      && (cutoff.None? || raw.serverTs.value > cutoff.value ==>
            && e.senderId == raw.sender && (e.isInbound <==> run.self != Some(raw.sender))
            && (raw.body != "" ==> e.contentText == raw.body))
  {
    hide Inv, Possible, Next, Fetched, Ingestable, Contains, Cutoff, Timestamps.Render, WalkProperties.Flatten;
    var room, tick := Exec(ticks[..|ticks| - 1]), ticks[|ticks| - 1];
    ExecKeeps(ticks[..|ticks| - 1]);
    TypesTaken(raw, tick.run.self);
    EntryHasRow(room, tick, raw);
    if !TooOld(raw, Cutoff(room.db, tick.run)) {
      FetchedRowsAreAsShown(room, tick, raw);
      RowSays(raw, tick.run.self);
    }
  }

  // ---- The conversation's own row ----

  /** The conversation's last-event column is the time of its newest stored event. */
  predicate ColumnAt(db: RoomDb, latest: Option<nat>) {
    match latest
    case None => db.conversation.None?
    case Some(ts) => db.conversation.Some? && db.conversation.value.lastEventAt == ts
  }

  lemma LatestGrows(known: seq<Fact>, facts: seq<Fact>)
    requires Timeline(known) && Timeline(facts) && forall f :: f in known ==> f in facts
    requires Latest(known).Some?
    ensures Latest(facts).Some? && Latest(known).value <= Latest(facts).value
  {
    hide Timeline, Latest;
    var f := LatestAttained(known);
    LatestBounds(facts, f);
  }

  lemma ColumnKeeps(room: Room, tick: Tick)
    requires Inv(room) && Possible(room, tick) && ColumnAt(room.db, Latest(room.facts[..room.seen]))
    ensures var next := Next(room, tick);
      next.seen <= |next.facts| && ColumnAt(next.db, Latest(next.facts[..next.seen]))
  {
    hide HistoryWalk.History, MatrixRoomMetadata, RoomInfoMetadata, ExactRows, Serves, RowOf;
    var facts, known := room.facts + tick.arrivals, room.facts[..room.seen];
    assert facts[..room.seen] == known && facts[..|facts|] == facts;
    if Fetched(room.db, tick.run).Ok? {
      var events := Fetched(room.db, tick.run).value;
      FetchMatches(room, tick);
      if events == [] {
        NothingNewer(room, tick);
      } else {
        LastIsLatest(events, facts, Cutoff(room.db, tick.run));
        PrefixIsTimeline(room.facts, room.seen);
        assert InRange(events[|events| - 1]);
        if Latest(known).Some? { LatestGrows(known, facts); }
        ColumnWritten(room.db, tick.run, events);
      }
    }
  }

  lemma ColumnWritten(db: RoomDb, run: Run, events: seq<IngestEvent>)
    requires events != [] && InRange(events[|events| - 1])
    ensures var was, ts := db.conversation, SentAt(events[|events| - 1]);
      Stored(db, run, events).conversation.Some? && Stored(db, run, events).conversation.value.lastEventAt
        == if was.Some? && was.value.lastEventAt > ts then was.value.lastEventAt else ts
  {
    hide MatrixRoomMetadata, RoomInfoMetadata;
  }

  lemma {:induction false} ColumnsKept(ticks: seq<Tick>)
    requires AllPossible(ticks)
    ensures var room := Exec(ticks); room.seen <= |room.facts| && ColumnAt(room.db, Latest(room.facts[..room.seen]))
  {
    hide Next, Inv, Possible, ColumnAt;
    if ticks == [] {
      NothingColumn();
    } else {
      ColumnsKept(ticks[..|ticks| - 1]);
      ExecKeeps(ticks[..|ticks| - 1]);
      ColumnKeeps(Exec(ticks[..|ticks| - 1]), ticks[|ticks| - 1]);
    }
  }

  lemma NothingColumn()
    ensures ColumnAt(RoomDb(None, map[]), Latest([]))
  {
  }

  /** Over any sequence of runs, right after one whose fetch succeeds, the conversation is there if the room has
      any event to store, and its last-event column is the time of the newest. */
  lemma LastEventColumn(ticks: seq<Tick>)
    requires AllPossible(ticks) && ticks != []
    requires Fetched(Exec(ticks[..|ticks| - 1]).db, ticks[|ticks| - 1].run).Ok?
    ensures ColumnAt(Exec(ticks).db, Latest(Exec(ticks).facts))
  {
    hide Fetched, Ingested, Possible, ColumnAt;
    ColumnsKept(ticks);
    var room := Exec(ticks);
    assert room.facts[..|room.facts|] == room.facts;
  }

  const WRITTEN := {"direct_runtime", "live_history_ingest", "message_count", "matrix_room_checkpoint",
                    "undecrypted_heal", "room_name_resolution", "topic", "event_counts", "provider", "provider_hints"}

  predicate Says(m: Metadata, key: string, value: MetaValue) {
    key in m && m[key] == value
  }

  /** What the run writes of itself. */
  predicate RunSays(m: Metadata, run: Run, count: nat, latest: IngestEvent) {
    && Says(m, "matrix_room_checkpoint", RoomCheckpoint(IsoToUnixMs(latest.occurredAt), latest.occurredAt,
                                                        Some(latest.externalId), true, IsoNow(run.nowMs)))
    && Says(m, "message_count", Count(count)) && Says(m, "live_history_ingest", Flag(true))
    && Says(m, "direct_runtime", Text("matrix-sdk-native"))
  }

  /** What it writes of the room. */
  predicate RoomSays(m: Metadata, run: Run) {
    && Says(m, "topic", Json(run.topic)) && Says(m, "event_counts", Json(run.eventCounts))
    && Says(m, "room_name_resolution", Text("sdk-derived")) && Says(m, "provider", Text("matrix"))
    && Says(m, "provider_hints", Text("matrix-compatible"))
  }

  predicate Records(m: Metadata, run: Run, count: nat, latest: IngestEvent) {
    RunSays(m, run, count, latest) && RoomSays(m, run)
  }

  lemma SentRunSays(base: Metadata, run: Run, count: nat, found: Metadata, latest: IngestEvent)
    ensures var m := MatrixRoomMetadata(base, count, found, latest, true, run.heal, run.undecryptedBefore, run.nowMs);
      RunSays(m, run, count, latest)
  {
    hide Timestamps.IsoNow, Timestamps.IsoToUnixMs;
  }

  /** What is in the room's own description is sent as it is, but for the keys the run writes. */
  lemma SentKeepsBase(base: Metadata, run: Run, count: nat, found: Metadata, latest: IngestEvent, key: string)
    requires key in base && key !in {"direct_runtime", "live_history_ingest", "message_count",
                                     "matrix_room_checkpoint", "undecrypted_heal"}
    ensures var m := MatrixRoomMetadata(base, count, found, latest, true, run.heal, run.undecryptedBefore, run.nowMs);
      Says(m, key, base[key])
  {
    hide Timestamps.IsoNow, Timestamps.IsoToUnixMs;
  }

  lemma SentRecords(run: Run, count: nat, found: Metadata, latest: IngestEvent)
    ensures Records(MatrixRoomMetadata(RoomInfoMetadata(run.topic, run.eventCounts), count, found, latest, true,
                                       run.heal, run.undecryptedBefore, run.nowMs), run, count, latest)
  {
    hide MatrixRoomMetadata, RunSays, Says;
    var base := RoomInfoMetadata(run.topic, run.eventCounts);
    SentRunSays(base, run, count, found, latest);
    SentKeepsBase(base, run, count, found, latest, "topic");
    SentKeepsBase(base, run, count, found, latest, "event_counts");
    SentKeepsBase(base, run, count, found, latest, "room_name_resolution");
    SentKeepsBase(base, run, count, found, latest, "provider");
    SentKeepsBase(base, run, count, found, latest, "provider_hints");
  }

  lemma MergeRecords(was: Metadata, m: Metadata, run: Run, count: nat, latest: IngestEvent)
    requires Records(m, run, count, latest)
    ensures Records(was + m, run, count, latest)
  {
    hide Timestamps.IsoNow, Timestamps.IsoToUnixMs;
  }

  /** A run that finds something records what it did: how much it found, the newest event by id and text and as
      the next cutoff, that the history is complete, and when it ran. */
  lemma RunIsRecorded(db: RoomDb, run: Run)
    requires Fetched(db, run).Ok? && Fetched(db, run).value != []
    ensures var found, after := Fetched(db, run).value, Ingested(db, run).conversation;
      after.Some? && Records(after.value.metadata, run, |found|, found[|found| - 1])
  {
    hide HistoryWalk.History, UpsertEvents, MatrixRoomMetadata, RoomInfoMetadata, Records;
    var found := Fetched(db, run).value;
    var latest := found[|found| - 1];
    var stored := PersistedRoomState(db.conversation).metadata;
    SentRecords(run, |found|, stored, latest);
    if db.conversation.Some? {
      MergeRecords(db.conversation.value.metadata,
        MatrixRoomMetadata(RoomInfoMetadata(run.topic, run.eventCounts), |found|, stored, latest, true, run.heal,
                           run.undecryptedBefore, run.nowMs), run, |found|, latest);
    }
  }

  /** Every other key of the conversation stays as it was. */
  lemma OtherKeysStay(db: RoomDb, run: Run, key: string)
    requires db.conversation.Some? && key in db.conversation.value.metadata && key !in WRITTEN
    ensures var after := Ingested(db, run).conversation;
      after.Some? && key in after.value.metadata && after.value.metadata[key] == db.conversation.value.metadata[key]
  {
    hide HistoryWalk.History, UpsertEvents, Timestamps.IsoNow, Timestamps.IsoToUnixMs;
  }

  /** What a run sends holds every key it found stored, its own aside. */
  lemma SentKeepsFound(base: Metadata, count: nat, found: Metadata, latest: IngestEvent, healed: bool, before: int,
                       now: nat, key: string)
    requires key in found && key !in base && key !in WRITTEN
    ensures var m := MatrixRoomMetadata(base, count, found, latest, true, healed, before, now);
      key in m && m[key] == found[key]
  {
    hide Timestamps.IsoNow, Timestamps.IsoToUnixMs;
  }

  /** A conversation stored without a checkpoint is read on from its last-event column, and one not stored from
      the start; so is any room that is healed. */
  lemma ReadsOnFrom(db: RoomDb, run: Run)
    ensures run.heal || db.conversation.None? ==> Fetched(db, run) == History(run.server, run.self, None)
    ensures !run.heal && db.conversation.Some? && "matrix_room_checkpoint" !in db.conversation.value.metadata ==>
      Fetched(db, run) == History(run.server, run.self, Some(db.conversation.value.lastEventAt))
  {
  }

  /** The state read back is what the run before left: its cutoff and that the history is complete. */
  lemma StateReadsBack(db: RoomDb, run: Run)
    requires Fetched(db, run).Ok? && Fetched(db, run).value != []
    ensures var found := Fetched(db, run).value; var state := PersistedRoomState(Ingested(db, run).conversation);
      && state.lastEventTsMs == Some(IsoToUnixMs(found[|found| - 1].occurredAt)) && state.backfillComplete
      && Ingested(db, run).conversation.Some? && state.metadata == Ingested(db, run).conversation.value.metadata
  {
    hide HistoryWalk.History, Timestamps.IsoNow, Timestamps.IsoToUnixMs, UpsertEvents;
  }
}
