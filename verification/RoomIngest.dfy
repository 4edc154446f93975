/** One room's stored state, and what an ingest run does to it. */
module RoomIngest {
  import opened Options
  import opened Timestamps
  import opened MatrixAdapter
  import opened HistoryWalk

  const CHECKPOINT_KEY := "matrix_room_checkpoint"
  const HEAL_KEY := "undecrypted_heal"
  const RUNTIME := "matrix-sdk-native"

  /** The JSON values the metadata object holds; `Json` stands for any other value. */
  datatype MetaValue =
    | Text(text: string)
    | Flag(flag: bool)
    | Count(count: nat)
    | RoomCheckpoint(latestEventTsMs: nat, latestEventAt: string, latestEventId: Option<string>,
                     backfillComplete: bool, updatedAt: string)
    | HealAttempt(attemptedAt: string, undecryptedCountBefore: int, runtime: string)
    | Json(tag: nat)

  type Metadata = map<string, MetaValue>

  datatype Conversation = Conversation(lastEventAt: nat, metadata: Metadata)

  datatype RoomDb = RoomDb(conversation: Option<Conversation>, events: map<string, IngestEvent>)

  datatype RoomState = RoomState(lastEventTsMs: Option<nat>, backfillComplete: bool, metadata: Metadata)

  /** The checkpoint in the metadata wins over the row's own last-event column. */
  function PersistedRoomState(conversation: Option<Conversation>): RoomState {
    match conversation
    case None => RoomState(None, false, map[])
    case Some(row) =>
      if CHECKPOINT_KEY in row.metadata && row.metadata[CHECKPOINT_KEY].RoomCheckpoint? then
        var checkpoint := row.metadata[CHECKPOINT_KEY];
        RoomState(Some(checkpoint.latestEventTsMs), checkpoint.backfillComplete, row.metadata)
      else RoomState(Some(row.lastEventAt), false, row.metadata)
  }

  /** The metadata a run builds before it looks at what is stored. */
  function RoomInfoMetadata(topic: nat, eventCounts: nat): Metadata {
    map["room_name_resolution" := Text("sdk-derived"), "topic" := Json(topic), "event_counts" := Json(eventCounts),
        "provider" := Text("matrix"), "provider_hints" := Text("matrix-compatible")]
  }

  function MatrixRoomMetadata(base: Metadata, messageCount: nat, existing: Metadata, latest: IngestEvent,
                              backfillComplete: bool, healAttempted: bool, undecryptedBefore: int, nowMs: nat): Metadata
  {
    var kept := map key | key in existing && key != CHECKPOINT_KEY && key !in base :: existing[key];
    var metadata := base + kept + map[
      "direct_runtime" := Text(RUNTIME),
      "live_history_ingest" := Flag(true),
      "message_count" := Count(messageCount),
      CHECKPOINT_KEY := RoomCheckpoint(IsoToUnixMs(latest.occurredAt), latest.occurredAt, Some(latest.externalId),
                                       backfillComplete, IsoNow(nowMs))];
    if healAttempted then metadata[HEAL_KEY := HealAttempt(IsoNow(nowMs), undecryptedBefore, RUNTIME)] else metadata
  }

  function UpsertConversation(existing: Option<Conversation>, lastEventAt: nat, metadata: Metadata): Conversation {
    match existing
    case None => Conversation(lastEventAt, metadata)
    case Some(row) =>
      Conversation(if row.lastEventAt < lastEventAt then lastEventAt else row.lastEventAt, row.metadata + metadata)
  }

  function UpsertEvents(table: map<string, IngestEvent>, events: seq<IngestEvent>): map<string, IngestEvent> {
    if events == [] then table
    else UpsertEvents(table, events[..|events| - 1])[events[|events| - 1].externalId := events[|events| - 1]]
  }

  /** What one run is given: the server, whether the room was picked for healing, the count that
      picked it, the clock, and the room facts that go into the metadata. */
  datatype Run = Run(server: Server, self: Option<string>, heal: bool, undecryptedBefore: int, nowMs: nat,
                     topic: nat, eventCounts: nat)

  function Cutoff(db: RoomDb, run: Run): Option<nat> {
    if run.heal then None else PersistedRoomState(db.conversation).lastEventTsMs
  }

  function Fetched(db: RoomDb, run: Run): Result<seq<IngestEvent>> {
    History(run.server, run.self, Cutoff(db, run))
  }

  function Stored(db: RoomDb, run: Run, events: seq<IngestEvent>): RoomDb
    requires events != []
  {
    var latest := events[|events| - 1];
    var metadata := MatrixRoomMetadata(RoomInfoMetadata(run.topic, run.eventCounts), |events|,
      PersistedRoomState(db.conversation).metadata, latest, true, run.heal, run.undecryptedBefore, run.nowMs);
    RoomDb(Some(UpsertConversation(db.conversation, LastEventAt(latest), metadata)), UpsertEvents(db.events, events))
  }

  /** The column value the database parses out of the event's timestamp. */
  function LastEventAt(latest: IngestEvent): nat {
    if latest.rawEvent.Raw? then TimeOf(latest.rawEvent) else 0
  }

  /** A failed fetch and an empty one leave everything as it was. */
  function Ingested(db: RoomDb, run: Run): RoomDb {
    match Fetched(db, run)
    case Err => db
    case Ok(events) => if events == [] then db else Stored(db, run, events)
  }

  class RoomStore {
    var conversation: Option<Conversation>
    var events: map<string, IngestEvent>

    function Db(): RoomDb
      reads this
    {
      RoomDb(conversation, events)
    }

    constructor ()
      ensures Db() == RoomDb(None, map[])
    {
      conversation, events := None, map[];
    }

    /** One room's turn in the ingest loop: the conversation is written first, then its events. */
    method IngestRoom(run: Run) returns (stored: nat)
      modifies this
      ensures Db() == Ingested(old(Db()), run)
      ensures stored == match Fetched(old(Db()), run) case Err => 0 case Ok(found) => |found|
    {
      hide HistoryWalk.History, MatrixRoomMetadata, RoomInfoMetadata, UpsertConversation;
      var roomState := PersistedRoomState(conversation);
      var fetched := FetchRoomHistory(run.server, run.self, if run.heal then None else roomState.lastEventTsMs);
      var roomEvents := if fetched.Ok? then fetched.value else [];
      stored := |roomEvents|;
      if roomEvents == [] && roomState.backfillComplete && !run.heal { return; }
      if roomEvents == [] { return; }
      var latest := roomEvents[|roomEvents| - 1];
      var metadata := MatrixRoomMetadata(RoomInfoMetadata(run.topic, run.eventCounts), |roomEvents|,
        roomState.metadata, latest, true, run.heal, run.undecryptedBefore, run.nowMs);
      conversation := Some(UpsertConversation(conversation, LastEventAt(latest), metadata));
      ghost var before := events;
      for i := 0 to |roomEvents|
        invariant events == UpsertEvents(before, roomEvents[..i])
        invariant conversation == Some(UpsertConversation(old(conversation), LastEventAt(latest), metadata))
      {
        assert roomEvents[..i + 1][..i] == roomEvents[..i];
        events := events[roomEvents[i].externalId := roomEvents[i]];
      }
      assert roomEvents[..|roomEvents|] == roomEvents;
    }
  }

  // ---- Records of heal attempts ----

  /** Only a run that attempts a heal writes the attempt record; every other run, whatever it
      finds, keeps the record as it was. */
  lemma HealRecordSurvives(db: RoomDb, run: Run)
    ensures var before := PersistedRoomState(db.conversation).metadata;
            var after := PersistedRoomState(Ingested(db, run).conversation).metadata;
      if run.heal && Fetched(db, run).Ok? && Fetched(db, run).value != []
      then HEAL_KEY in after && after[HEAL_KEY] == HealAttempt(IsoNow(run.nowMs), run.undecryptedBefore, RUNTIME)
      else (HEAL_KEY in after <==> HEAL_KEY in before) && (HEAL_KEY in before ==> after[HEAL_KEY] == before[HEAL_KEY])
  {
    hide HistoryWalk.History, Timestamps.IsoNow, Timestamps.IsoToUnixMs;
  }
}
