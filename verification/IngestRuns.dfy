/** Runs over a growing room: nothing lost, nothing stored twice. */
module IngestRuns {
  import opened Options
  import opened Timestamps
  import opened MatrixAdapter
  import opened HistoryWalk
  import opened WalkProperties
  import opened RoomIngest
  import StableSort

  /** What never changes about one entry of the room's timeline. Its text may: an event that
      could not be decrypted in one run may be readable in the next. */
  datatype Fact = Fact(id: string, sentAt: nat, ingestable: bool)

  predicate Shows(raw: RawEvent, fact: Fact) {
    && (Ingestable(raw) <==> fact.ingestable)
    && (fact.ingestable ==> raw.eventId == Some(fact.id))
    && (raw.Raw? ==> TimeOf(raw) == fact.sentAt)
  }

  /** Later entries carry strictly larger times, and no two events to store share an id. */
  predicate Timeline(facts: seq<Fact>) {
    && (forall i, j :: 0 <= i < j < |facts| ==> facts[i].sentAt < facts[j].sentAt)
    && (forall i :: 0 <= i < |facts| ==> facts[i].sentAt < Y10K_MS)
    && (forall i, j :: 0 <= i < j < |facts| && facts[i].ingestable && facts[j].ingestable
          ==> facts[i].id != facts[j].id)
  }

  /** The server's pages, put together, are the timeline read backwards. */
  predicate Serves(server: Server, facts: seq<Fact>) {
    var view := Flatten(server.pages);
    && (forall p :: 0 <= p < |server.pages| ==> server.pages[p] != [])
    && |view| == |facts|
    && forall i :: 0 <= i < |view| ==> Shows(view[i], facts[|facts| - 1 - i])
  }

  /** The time of the newest event to store. */
  function Latest(facts: seq<Fact>): Option<nat> {
    if facts == [] then None
    else if facts[|facts| - 1].ingestable then Some(facts[|facts| - 1].sentAt)
    else Latest(facts[..|facts| - 1])
  }

  lemma InitOrLast(facts: seq<Fact>, f: Fact)
    requires Timeline(facts) && facts != []
    ensures f in facts <==> f in facts[..|facts| - 1] || f == facts[|facts| - 1]
    ensures f in facts ==> f.sentAt <= facts[|facts| - 1].sentAt
  {
    assert facts == facts[..|facts| - 1] + [facts[|facts| - 1]];
  }

  lemma {:induction false} LatestIsLatest(facts: seq<Fact>)
    requires Timeline(facts)
    ensures Latest(facts).None? <==> forall f :: f in facts ==> !f.ingestable
    ensures Latest(facts).Some? ==> exists f :: f in facts && f.ingestable && f.sentAt == Latest(facts).value
    ensures Latest(facts).Some? ==> forall f :: f in facts && f.ingestable ==> f.sentAt <= Latest(facts).value
  {
    if facts != [] {
      var init, last := facts[..|facts| - 1], facts[|facts| - 1];
      PrefixIsTimeline(facts, |facts| - 1);
      LatestIsLatest(init);
      forall f ensures (f in facts <==> f in init || f == last) && (f in facts ==> f.sentAt <= last.sentAt) {
        InitOrLast(facts, f);
      }
      hide Timeline;
    }
  }

  lemma PrefixIsTimeline(facts: seq<Fact>, n: nat)
    requires Timeline(facts) && n <= |facts|
    ensures Timeline(facts[..n])
  {
  }

  // ---- The stored rows ----

  predicate RowOf(events: map<string, IngestEvent>, fact: Fact) {
    fact.id in events && EventOf(events[fact.id], fact)
  }

  /** One row for each event to store among `facts`, carrying its time, and no other row. */
  predicate ExactRows(events: map<string, IngestEvent>, facts: seq<Fact>) {
    && (forall f :: f in facts && f.ingestable ==> RowOf(events, f))
    && (forall id :: id in events ==> HasFact(id, facts))
  }

  predicate HasFact(id: string, facts: seq<Fact>) {
    exists f :: f in facts && f.ingestable && f.id == id
  }

  lemma FactNamed(id: string, facts: seq<Fact>) returns (f: Fact)
    requires HasFact(id, facts)
    ensures f in facts && f.ingestable && f.id == id
  {
    f :| f in facts && f.ingestable && f.id == id;
  }

  /** The checkpoint is the newest stored event's time, rounded down to a whole second. */
  predicate CheckpointAt(db: RoomDb, latest: Option<nat>) {
    match latest
    case None => db.conversation.None?
    case Some(ts) => db.conversation.Some? && PersistedRoomState(db.conversation).lastEventTsMs == Some(WholeSecond(ts))
  }

  /** A room, its store, and how much of its timeline the store has taken in. */
  datatype Room = Room(facts: seq<Fact>, seen: nat, db: RoomDb)

  predicate Inv(room: Room) {
    && room.seen <= |room.facts|
    && Timeline(room.facts)
    && ExactRows(room.db.events, room.facts[..room.seen])
    && CheckpointAt(room.db, Latest(room.facts[..room.seen]))
  }

  /** New entries arrive, then the job runs against a server that serves them all. */
  datatype Tick = Tick(arrivals: seq<Fact>, run: Run)

  predicate Possible(room: Room, tick: Tick) {
    Timeline(room.facts + tick.arrivals) && Serves(tick.run.server, room.facts + tick.arrivals)
  }

  function Next(room: Room, tick: Tick): Room {
    var facts := room.facts + tick.arrivals;
    Room(facts, if Fetched(room.db, tick.run).Ok? then |facts| else room.seen, Ingested(room.db, tick.run))
  }

  // ---- What a fetch finds ----

  lemma ServedInOrder(server: Server, facts: seq<Fact>)
    requires Timeline(facts) && Serves(server, facts)
    ensures NewestFirst(Flatten(server.pages)) && FourDigitYears(Flatten(server.pages))
  {
    var view := Flatten(server.pages);
    forall raw | raw in view && raw.Raw? ensures TimeOf(raw) < Y10K_MS {
      var i :| 0 <= i < |view| && view[i] == raw;
      assert Shows(view[i], facts[|facts| - 1 - i]);
    }
    forall i, j | 0 <= i < j < |view| && view[i].Raw? && view[j].Raw?
      ensures TimeOf(view[i]) >= TimeOf(view[j])
    {
      assert Shows(view[i], facts[|facts| - 1 - i]) && Shows(view[j], facts[|facts| - 1 - j]);
    }
  }

  /** An event found is a fact past the cutoff; a fact past the cutoff is an event found. */
  predicate Matches(events: seq<IngestEvent>, facts: seq<Fact>, cutoff: Option<nat>) {
    && (forall e :: e in events ==> InRange(e) && FactFor(e, facts, cutoff))
    && (forall f :: f in facts && Past(f, cutoff) ==> EventFor(f, events))
  }

  predicate Past(f: Fact, cutoff: Option<nat>) {
    f.ingestable && (cutoff.Some? ==> f.sentAt > cutoff.value)
  }

  predicate FactFor(e: IngestEvent, facts: seq<Fact>, cutoff: Option<nat>) {
    exists f :: f in facts && Past(f, cutoff) && EventOf(e, f)
  }

  predicate EventFor(f: Fact, events: seq<IngestEvent>) {
    exists e :: e in events && EventOf(e, f)
  }

  predicate EventOf(e: IngestEvent, f: Fact) {
    Dated(e) && e.externalId == f.id && SentAt(e) == f.sentAt
  }

  lemma TheFact(e: IngestEvent, facts: seq<Fact>, cutoff: Option<nat>) returns (f: Fact)
    requires FactFor(e, facts, cutoff)
    ensures f in facts && Past(f, cutoff) && EventOf(e, f)
  {
    f :| f in facts && Past(f, cutoff) && EventOf(e, f);
  }

  lemma TheEvent(f: Fact, events: seq<IngestEvent>) returns (e: IngestEvent)
    requires EventFor(f, events)
    ensures e in events && EventOf(e, f)
  {
    e :| e in events && EventOf(e, f);
  }

  lemma CollectMatches(view: seq<RawEvent>, facts: seq<Fact>, self: Option<string>, cutoff: Option<nat>)
    requires Timeline(facts) && |view| == |facts|
    requires forall i :: 0 <= i < |view| ==> Shows(view[i], facts[|facts| - 1 - i])
    ensures Matches(Collect(view, self, cutoff), facts, cutoff)
  {
    hide MatrixAdapter.ParseTimelineEvent, Timestamps.Render, MatrixAdapter.ShouldIngestEvent;
    var events := Collect(view, self, cutoff);
    forall e | e in events ensures InRange(e) && FactFor(e, facts, cutoff) {
      CollectMembers(view, self, cutoff, e);
      var i :| 0 <= i < |view| && view[i] == e.rawEvent;
      var f := facts[|facts| - 1 - i];
      assert Shows(view[i], f) && f in facts;
    }
    forall f | f in facts && Past(f, cutoff) ensures EventFor(f, events) {
      var k :| 0 <= k < |facts| && facts[k] == f;
      var raw := view[|facts| - 1 - k];
      assert Shows(raw, facts[|facts| - 1 - (|facts| - 1 - k)]);
      var e := ParseTimelineEvent(raw, self).value;
      CollectMembers(view, self, cutoff, e);
      assert e in events;
    }
  }

  predicate IdKept(e: IngestEvent, kept: seq<IngestEvent>) {
    exists k :: k in kept && k.externalId == e.externalId
  }

  lemma Survivor(e: IngestEvent, kept: seq<IngestEvent>) returns (k: IngestEvent)
    requires IdKept(e, kept)
    ensures k in kept && k.externalId == e.externalId
  {
    k :| k in kept && k.externalId == e.externalId;
  }

  lemma {:induction false} DedupKeepsIds(last: Option<string>, events: seq<IngestEvent>)
    ensures forall e :: e in DedupFrom(last, events) ==> e in events
    ensures forall e :: e in events && Some(e.externalId) != last ==> IdKept(e, DedupFrom(last, events))
    decreases |events|
  {
    DedupMembers(last, events);
    if events != [] {
      var head, tail := events[0], events[1..];
      var next := if last == Some(head.externalId) then last else Some(head.externalId);
      DedupKeepsIds(next, tail);
      forall e | e in events && Some(e.externalId) != last ensures IdKept(e, DedupFrom(last, events)) {
        if e.externalId == head.externalId {
          assert head in DedupFrom(last, events);
        } else {
          assert e in tail;
          var k := Survivor(e, DedupFrom(next, tail));
          assert k in DedupFrom(last, events);
        }
      }
    }
  }

  lemma FetchMatches(room: Room, tick: Tick)
    requires Inv(room) && Possible(room, tick) && Fetched(room.db, tick.run).Ok?
    ensures Matches(Fetched(room.db, tick.run).value, room.facts + tick.arrivals, Cutoff(room.db, tick.run))
    ensures AllInRange(Fetched(room.db, tick.run).value) && Ascending(Fetched(room.db, tick.run).value)
  {
    hide MatrixAdapter.ParseTimelineEvent, Timestamps.Render, MatrixAdapter.Dated;
    var facts, run := room.facts + tick.arrivals, tick.run;
    var cutoff := Cutoff(room.db, run);
    ServedInOrder(run.server, facts);
    StopLosesNothing(run.server, run.self, cutoff);
    var view := Flatten(run.server.pages);
    var found := Collect(view, run.self, cutoff);
    CollectMatches(view, facts, run.self, cutoff);
    CollectInRange(view, run.self, cutoff);
    SortAscends(found);
    StableSort.SortMembers(Earlier, found);
    var sorted := StableSort.Sort(Earlier, found);
    DedupAscends(None, sorted);
    DedupKeepsIds(None, sorted);
    FinishMatches(found, sorted, Finish(found), facts, cutoff);
  }

  lemma FinishMatches(found: seq<IngestEvent>, sorted: seq<IngestEvent>, kept: seq<IngestEvent>, facts: seq<Fact>,
                      cutoff: Option<nat>)
    requires Timeline(facts) && Matches(found, facts, cutoff)
    requires forall e :: e in sorted <==> e in found
    requires forall e :: e in kept ==> e in sorted
    requires forall e :: e in sorted ==> IdKept(e, kept)
    ensures Matches(kept, facts, cutoff)
  {
    hide InRange, Timeline, IdKept, FactFor, EventFor, EventOf;
    forall f | f in facts && Past(f, cutoff) ensures EventFor(f, kept) {
      var e := TheEvent(f, found);
      EventOfId(e, f);
      var k := Survivor(e, kept);
      assert k in sorted && k in found;
      SameEvent(facts, cutoff, k, f);
      EventFound(k, f, kept);
    }
  }

  lemma EventOfId(e: IngestEvent, f: Fact)
    requires EventOf(e, f)
    ensures e.externalId == f.id
  {
  }

  lemma EventFound(e: IngestEvent, f: Fact, events: seq<IngestEvent>)
    requires e in events && EventOf(e, f)
    ensures EventFor(f, events)
  {
  }

  lemma SameEvent(facts: seq<Fact>, cutoff: Option<nat>, k: IngestEvent, f: Fact)
    requires Timeline(facts) && FactFor(k, facts, cutoff) && f in facts && f.ingestable && f.id == k.externalId
    ensures EventOf(k, f)
  {
    hide FactFor;
    var g := TheFact(k, facts, cutoff);
    SameId(facts, f, g);
  }

  lemma SameId(facts: seq<Fact>, f: Fact, g: Fact)
    requires Timeline(facts) && f in facts && g in facts && f.ingestable && g.ingestable && f.id == g.id
    ensures f == g
  {
    var i :| 0 <= i < |facts| && facts[i] == f;
    var j :| 0 <= j < |facts| && facts[j] == g;
  }

  // ---- Writing what was found ----

  lemma {:induction false} UpsertedRows(table: map<string, IngestEvent>, events: seq<IngestEvent>)
    ensures var after := UpsertEvents(table, events);
      && (forall id :: id in after <==> id in table || exists e :: e in events && e.externalId == id)
      && (forall id :: id in after && !(id in table && after[id] == table[id])
            ==> after[id] in events && after[id].externalId == id)
      && (forall e :: e in events ==> after[e.externalId] in events && after[e.externalId].externalId == e.externalId)
  {
    if events != [] {
      var init, last := events[..|events| - 1], events[|events| - 1];
      UpsertedRows(table, init);
      assert events == init + [last];
    }
  }

  /** Rows already exact up to the cutoff, plus exactly the facts past it, are exact. */
  lemma RowsComplete(table: map<string, IngestEvent>, known: seq<Fact>, events: seq<IngestEvent>, facts: seq<Fact>,
                     cutoff: Option<nat>)
    requires Timeline(facts) && ExactRows(table, known) && Matches(events, facts, cutoff)
    requires forall f :: f in known ==> f in facts
    requires forall f :: f in facts && f.ingestable && !Past(f, cutoff) ==> f in known
    ensures ExactRows(UpsertEvents(table, events), facts)
  {
    hide EventOf, HasFact, FactFor, EventFor, Timeline, InRange;
    UpsertedRows(table, events);
    var after := UpsertEvents(table, events);
    forall f | f in facts && f.ingestable ensures RowOf(after, f) {
      if Past(f, cutoff) {
        var e := TheEvent(f, events);
        EventOfId(e, f);
      } else {
        assert RowOf(table, f);
      }
      if after[f.id] in events && after[f.id].externalId == f.id {
        SameEvent(facts, cutoff, after[f.id], f);
      } else {
        assert after[f.id] == table[f.id];
        var g := FactNamed(f.id, known);
        SameId(facts, f, g);
        assert RowOf(table, g);
      }
    }
    forall id | id in after ensures HasFact(id, facts) {
      var f;
      if id in table {
        f := FactNamed(id, known);
      } else {
        var e :| e in events && e.externalId == id;
        f := TheFact(e, facts, cutoff);
        EventOfId(e, f);
      }
      NamedFact(f, facts);
    }
  }

  lemma NamedFact(f: Fact, facts: seq<Fact>)
    requires f in facts && f.ingestable
    ensures HasFact(f.id, facts)
  {
  }

  /** The last event found is the newest to store in the whole timeline. */
  lemma LastIsLatest(events: seq<IngestEvent>, facts: seq<Fact>, cutoff: Option<nat>)
    requires Timeline(facts) && Matches(events, facts, cutoff) && events != []
    requires AllInRange(events) && Ascending(events)
    ensures Latest(facts) == Some(SentAt(events[|events| - 1]))
  {
    hide FactFor, EventFor, MatrixAdapter.Dated;
    LatestIsLatest(facts);
    var last := events[|events| - 1];
    assert last in events;
    var f := TheFact(last, facts, cutoff);
    var g :| g in facts && g.ingestable && g.sentAt == Latest(facts).value;
    assert f.sentAt <= g.sentAt;
    var e := TheEvent(g, events);
    var i :| 0 <= i < |events| && events[i] == e;
    assert SentAt(events[i]) <= SentAt(last);
  }

  /** Anything at or before the checkpoint was taken in before it was written. */
  lemma BeforeCutoffSeen(room: Room, tick: Tick)
    requires Inv(room) && Possible(room, tick)
    ensures var facts := room.facts + tick.arrivals;
      && (forall f :: f in room.facts[..room.seen] ==> f in facts)
      && (forall f :: f in facts && f.ingestable && !Past(f, Cutoff(room.db, tick.run))
            ==> f in room.facts[..room.seen])
  {
    hide ExactRows, Serves;
    var facts, known := room.facts + tick.arrivals, room.facts[..room.seen];
    LatestIsLatest(known);
    assert facts[..room.seen] == known;
    forall f | f in facts && f.ingestable && !Past(f, Cutoff(room.db, tick.run)) ensures f in known {
      InPrefix(facts, room.seen, Latest(known).value, f);
    }
  }

  /** On a timeline, whatever is no newer than some entry of a prefix lies in that prefix. */
  lemma InPrefix(facts: seq<Fact>, n: nat, ts: nat, f: Fact)
    requires Timeline(facts) && n <= |facts| && f in facts && f.sentAt <= ts
    requires exists g :: g in facts[..n] && g.sentAt == ts
    ensures f in facts[..n]
  {
    var g :| g in facts[..n] && g.sentAt == ts;
    var i :| 0 <= i < |facts| && facts[i] == f;
    var j :| 0 <= j < n && facts[..n][j] == g;
    assert facts[j] == g && i <= j;
    assert facts[..n][i] == f;
  }

  lemma StoredCheckpoint(db: RoomDb, run: Run, events: seq<IngestEvent>)
    requires events != [] && InRange(events[|events| - 1])
    ensures CheckpointAt(Stored(db, run, events), Some(SentAt(events[|events| - 1])))
  {
    hide Timestamps.Render, Timestamps.IsoToUnixMs, Timestamps.IsoNow;
    var latest := events[|events| - 1];
    CheckpointRoundTrip(SentAt(latest));
  }

  lemma LatestAttained(facts: seq<Fact>) returns (f: Fact)
    requires Timeline(facts) && Latest(facts).Some?
    ensures f in facts && f.ingestable && f.sentAt == Latest(facts).value
  {
    LatestIsLatest(facts);
    hide Timeline, Latest;
    f :| f in facts && f.ingestable && f.sentAt == Latest(facts).value;
  }

  lemma LatestBounds(facts: seq<Fact>, f: Fact)
    requires Timeline(facts) && f in facts && f.ingestable
    ensures Latest(facts).Some? && f.sentAt <= Latest(facts).value
  {
    LatestIsLatest(facts);
  }

  /** Entries that add nothing to store leave the newest event to store as it is. */
  lemma SameLatest(facts: seq<Fact>, known: seq<Fact>)
    requires Timeline(facts) && Timeline(known)
    requires forall f :: f in known ==> f in facts
    requires forall f :: f in facts && f.ingestable ==> f in known
    ensures Latest(facts) == Latest(known)
  {
    hide Timeline, Latest;
    if Latest(facts).Some? {
      var f := LatestAttained(facts);
      LatestBounds(known, f);
    }
    if Latest(known).Some? {
      var f := LatestAttained(known);
      LatestBounds(facts, f);
    }
  }

  /** If nothing lies past the cutoff, the newest event to store is the one already stored. */
  lemma NothingNewer(room: Room, tick: Tick)
    requires Inv(room) && Possible(room, tick)
    requires Matches([], room.facts + tick.arrivals, Cutoff(room.db, tick.run))
    ensures ExactRows(room.db.events, room.facts + tick.arrivals)
    ensures Latest(room.facts + tick.arrivals) == Latest(room.facts[..room.seen])
  {
    hide EventOf, HasFact, Serves, RowOf, CheckpointAt;
    var facts, known := room.facts + tick.arrivals, room.facts[..room.seen];
    BeforeCutoffSeen(room, tick);
    PrefixIsTimeline(room.facts, room.seen);
    hide Timeline, Cutoff;
    RowsComplete(room.db.events, known, [], facts, Cutoff(room.db, tick.run));
    forall f | f in facts && f.ingestable ensures f in known {
    }
    hide ExactRows, Matches;
    SameLatest(facts, known);
  }

  /** Every run keeps the store exact for what it has taken in, and a run whose fetch succeeds
      takes in the whole timeline. */
  lemma StepKeeps(room: Room, tick: Tick)
    requires Inv(room) && Possible(room, tick)
    ensures Inv(Next(room, tick))
  {
    hide HistoryWalk.History, MatrixAdapter.Dated, Timestamps.WholeSecond, Stored;
    var facts := room.facts + tick.arrivals;
    if Fetched(room.db, tick.run).Err? {
      assert facts[..room.seen] == room.facts[..room.seen];
    } else {
      var events := Fetched(room.db, tick.run).value;
      var cutoff := Cutoff(room.db, tick.run);
      FetchMatches(room, tick);
      assert facts[..|facts|] == facts;
      if events == [] {
        NothingNewer(room, tick);
      } else {
        BeforeCutoffSeen(room, tick);
        RowsComplete(room.db.events, room.facts[..room.seen], events, facts, cutoff);
        LastIsLatest(events, facts, cutoff);
        assert InRange(events[|events| - 1]);
        StoredCheckpoint(room.db, tick.run, events);
        StoredEvents(room.db, tick.run, events);
      }
    }
  }

  lemma StoredEvents(db: RoomDb, run: Run, events: seq<IngestEvent>)
    requires events != []
    ensures Stored(db, run, events).events == UpsertEvents(db.events, events)
  {
  }

  // ---- Whole histories ----

  function Exec(ticks: seq<Tick>): Room {
    if ticks == [] then Room([], 0, RoomDb(None, map[]))
    else Next(Exec(ticks[..|ticks| - 1]), ticks[|ticks| - 1])
  }

  predicate AllPossible(ticks: seq<Tick>) {
    ticks == [] || (AllPossible(ticks[..|ticks| - 1]) && Possible(Exec(ticks[..|ticks| - 1]), ticks[|ticks| - 1]))
  }

  lemma {:induction false} ExecKeeps(ticks: seq<Tick>)
    requires AllPossible(ticks)
    ensures Inv(Exec(ticks))
  {
    hide Next;
    if ticks != [] {
      ExecKeeps(ticks[..|ticks| - 1]);
      StepKeeps(Exec(ticks[..|ticks| - 1]), ticks[|ticks| - 1]);
    }
  }

  /** Over any sequence of runs on a growing room, failed fetches and heals included: right
      after a run whose fetch succeeds, the table holds exactly one row per event to store and
      no other row, and the checkpoint trails the newest of them by less than a second. */
  lemma MultiRunCompleteness(ticks: seq<Tick>)
    requires AllPossible(ticks) && ticks != []
    ensures var before, last, room := Exec(ticks[..|ticks| - 1]), ticks[|ticks| - 1], Exec(ticks);
      Fetched(before.db, last.run).Ok? ==>
        && ExactRows(room.db.events, room.facts)
        && CheckpointAt(room.db, Latest(room.facts))
  {
    hide ExactRows, CheckpointAt, Timeline, Possible, Fetched, Ingested;
    ExecKeeps(ticks);
    var room := Exec(ticks);
    assert room.facts[..|room.facts|] == room.facts;
  }

  /** At any moment the table holds only rows of the room's own events, each with its time. */
  lemma NeverForeignRows(ticks: seq<Tick>, id: string)
    requires AllPossible(ticks) && id in Exec(ticks).db.events
    ensures exists f :: f in Exec(ticks).facts && f.ingestable && f.id == id && RowOf(Exec(ticks).db.events, f)
  {
    ExecKeeps(ticks);
    var room := Exec(ticks);
    var f := FactNamed(id, room.facts[..room.seen]);
    assert f in room.facts;
  }
}
