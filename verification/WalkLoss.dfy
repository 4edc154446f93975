/** What a walk with a cutoff misses, on timestamps of any kind and in any order. */
module WalkLoss {
  import opened Options
  import opened MatrixAdapter
  import opened HistoryWalk
  import opened WalkProperties
  import opened IngestRuns
  import StableSort

  /** An event to store, newer than the cutoff. */
  predicate ToStore(raw: RawEvent, cutoff: nat) {
    Ingestable(raw) && TimeOf(raw) > cutoff
  }

  /** Reading the page ends the walk: it is empty, or holds an entry at or before the cutoff; an
      entry without a timestamp is one. */
  predicate EndsWalk(page: seq<RawEvent>, cutoff: nat) {
    page == [] || ReachesCutoff(page, Some(cutoff))
  }

  /** The page comes after one that ends the walk. */
  predicate Beyond(pages: seq<seq<RawEvent>>, cutoff: nat, p: int) {
    exists q :: 0 <= q < p && q < |pages| && EndsWalk(pages[q], cutoff)
  }

  predicate LostOn(pages: seq<seq<RawEvent>>, cutoff: nat, p: int, raw: RawEvent) {
    0 <= p < |pages| && raw in pages[p] && ToStore(raw, cutoff) && Beyond(pages, cutoff, p)
  }

  predicate FoundOn(pages: seq<seq<RawEvent>>, cutoff: nat, p: int, raw: RawEvent) {
    0 <= p < |pages| && raw in pages[p] && ToStore(raw, cutoff) && !Beyond(pages, cutoff, p)
  }

  /** The pages not read are those beyond one that ends the walk. */
  lemma StopIsBeyond(pages: seq<seq<RawEvent>>, stop: nat, cutoff: nat, p: nat, raw: RawEvent)
    requires StopsAt(pages, 0, stop, Some(cutoff)) && p < |pages| && raw in pages[p]
    ensures stop <= p <==> Beyond(pages, cutoff, p)
  {
    hide HistoryWalk.ReachesCutoff;
    if stop <= p {
      if pages[stop] == [] {
        assert EndsWalk(pages[stop], cutoff);
      } else {
        assert EndsWalk(pages[stop - 1], cutoff);
      }
    }
  }

  /** The events to store are on the pages as the collected events say. */
  lemma CollectedOn(pages: seq<seq<RawEvent>>, self: Option<string>, cutoff: nat)
    ensures Collect(Flatten(pages), self, Some(cutoff)) == []
      <==> forall p, raw :: 0 <= p < |pages| && raw in pages[p] ==> !ToStore(raw, cutoff)
  {
    hide MatrixAdapter.Dated;
    var events := Collect(Flatten(pages), self, Some(cutoff));
    if events != [] {
      var raw := events[0].rawEvent;
      assert events[0] in events;
      CollectMembers(Flatten(pages), self, Some(cutoff), events[0]);
      var p := FlattenMember(pages, raw);
      assert raw in pages[p] && ToStore(raw, cutoff);
    } else {
      forall p, raw | 0 <= p < |pages| && raw in pages[p] ensures !ToStore(raw, cutoff) {
        MemberFlattened(pages, p, raw);
        if ToStore(raw, cutoff) {
          CollectMembers(Flatten(pages), self, Some(cutoff), ParseTimelineEvent(raw, self).value);
        }
      }
    }
  }

  /** On any timestamps, a walk with a cutoff that succeeds returns everything newer than the cutoff
      if and only if no event to store newer than it lies on a page after the first that ends the walk. */
  lemma WalkLosesExactly(server: Server, self: Option<string>, cutoff: nat)
    requires WalkFrom(server, 0, self, Some(cutoff)).Ok?
    ensures WalkFrom(server, 0, self, Some(cutoff)).value == Collect(Flatten(server.pages), self, Some(cutoff))
      <==> forall p, raw :: !LostOn(server.pages, cutoff, p, raw)
  {
    hide HistoryWalk.WalkFrom, HistoryWalk.Collect, StopsAt, ToStore, Beyond;
    var pages := server.pages;
    var stop := StopExists(pages, 0, Some(cutoff));
    StopBounded(pages, stop, cutoff);
    WalkReadsPages(server, 0, stop, self, Some(cutoff));
    assert pages[0..stop] == pages[..stop] && pages[..stop] + pages[stop..] == pages;
    FlattenAppend(pages[..stop], pages[stop..]);
    CollectAppend(Flatten(pages[..stop]), Flatten(pages[stop..]), self, Some(cutoff));
    var rest := Collect(Flatten(pages[stop..]), self, Some(cutoff));
    var read := WalkFrom(server, 0, self, Some(cutoff)).value;
    assert read == read + rest <==> rest == [];
    CollectedOn(pages[stop..], self, cutoff);
    RestIsLost(pages, stop, cutoff);
  }

  lemma StopBounded(pages: seq<seq<RawEvent>>, stop: nat, cutoff: nat)
    requires StopsAt(pages, 0, stop, Some(cutoff))
    ensures stop <= |pages|
  {
  }

  lemma RestIsLost(pages: seq<seq<RawEvent>>, stop: nat, cutoff: nat)
    requires StopsAt(pages, 0, stop, Some(cutoff)) && stop <= |pages|
    ensures (forall p, raw :: 0 <= p < |pages[stop..]| && raw in pages[stop..][p] ==> !ToStore(raw, cutoff))
      <==> (forall p, raw :: !LostOn(pages, cutoff, p, raw))
  {
    hide StopsAt, ToStore, Beyond;
    var rest := pages[stop..];
    if p, raw :| 0 <= p < |rest| && raw in rest[p] && ToStore(raw, cutoff) {
      StopIsBeyond(pages, stop, cutoff, stop + p, raw);
      assert LostOn(pages, cutoff, stop + p, raw);
    }
    if p, raw :| LostOn(pages, cutoff, p, raw) {
      StopIsBeyond(pages, stop, cutoff, p, raw);
      assert raw in rest[p - stop];
    }
  }

  /** The id is among the events returned. */
  ghost predicate Returned(events: seq<IngestEvent>, id: string) {
    exists e :: e in events && e.externalId == id
  }

  ghost predicate FoundId(pages: seq<seq<RawEvent>>, cutoff: nat, id: string) {
    exists p, raw :: FoundOn(pages, cutoff, p, raw) && raw.eventId == Some(id)
  }

  /** Sorting and removing repeats neither adds nor drops an id. */
  lemma FinishKeepsIds(events: seq<IngestEvent>, id: string)
    ensures Returned(Finish(events), id) <==> Returned(events, id)
  {
    var sorted := StableSort.Sort(Earlier, events);
    StableSort.SortMembers(Earlier, events);
    forall e ensures e in sorted <==> e in events {
      assert e in sorted <==> e in multiset(sorted);
      assert e in events <==> e in multiset(events);
    }
    DedupKeepsIds(None, sorted);
    if e :| e in events && e.externalId == id {
      var kept := Survivor(e, Finish(events));
    }
  }

  /** By id: an event is found if and only if an entry for it, newer than the cutoff, lies on a page
      up to the first that ends the walk; so it is missed just when all such entries lie beyond. */
  lemma HistoryFindsExactly(server: Server, self: Option<string>, cutoff: nat, id: string)
    requires History(server, self, Some(cutoff)).Ok?
    ensures Returned(History(server, self, Some(cutoff)).value, id) <==> FoundId(server.pages, cutoff, id)
  {
    hide HistoryWalk.WalkFrom, HistoryWalk.Collect, HistoryWalk.Finish, StopsAt, Beyond, MatrixAdapter.Dated;
    hide MatrixAdapter.ParseTimelineEvent;
    var pages := server.pages;
    var stop := StopExists(pages, 0, Some(cutoff));
    StopBounded(pages, stop, cutoff);
    WalkReadsPages(server, 0, stop, self, Some(cutoff));
    var read := WalkFrom(server, 0, self, Some(cutoff)).value;
    assert pages[0..stop] == pages[..stop];
    FinishKeepsIds(read, id);
    if e :| e in read && e.externalId == id {
      CollectMembers(Flatten(pages[..stop]), self, Some(cutoff), e);
      var p := FlattenMember(pages[..stop], e.rawEvent);
      StopIsBeyond(pages, stop, cutoff, p, e.rawEvent);
      assert FoundOn(pages, cutoff, p, e.rawEvent);
    }
    if p, raw :| FoundOn(pages, cutoff, p, raw) && raw.eventId == Some(id) {
      StopIsBeyond(pages, stop, cutoff, p, raw);
      assert pages[..stop][p] == pages[p];
      MemberFlattened(pages[..stop], p, raw);
      var e := ParseTimelineEvent(raw, self).value;
      CollectMembers(Flatten(pages[..stop]), self, Some(cutoff), e);
      assert e in read;
    }
  }

  // ---- Failures ----

  /** Reading the page leads on to the next: it holds entries, none at or before the cutoff, and the server names
      a token not used just before. */
  predicate LeadsOn(server: Server, page: nat, cutoff: Option<nat>) {
    && page < |server.pages| && server.pages[page] != []
    && (forall raw :: raw in server.pages[page] && raw.Raw? && cutoff.Some? ==> TimeOf(raw) > cutoff.value)
    && (page + 1 < |server.pages| || server.finalEnd.TokenToNothing?
        || (server.finalEnd.RepeatedToken? && page == 0))
  }

  /** A walk fails if and only if a request it comes to make fails: one that every page before leads on to. */
  lemma {:induction false} WalkFailsWhen(server: Server, from: nat, self: Option<string>, cutoff: Option<nat>)
    requires server.failsAt.Some? ==> from <= server.failsAt.value
    ensures WalkFrom(server, from, self, cutoff).Err? <==>
      server.failsAt.Some? && forall q :: from <= q < server.failsAt.value ==> LeadsOn(server, q, cutoff)
    decreases |server.pages| - from
  {
    hide HistoryWalk.Collect;
    if server.failsAt != Some(from) && LeadsOn(server, from, cutoff) {
      WalkFailsWhen(server, from + 1, self, cutoff);
    }
  }

  // ---- Repeats ----

  /** Entries to store have the same time if and only if they are of the same event. */
  predicate TimesTellEvents(view: seq<RawEvent>) {
    forall a, b :: a in view && b in view && Ingestable(a) && Ingestable(b) ==>
      (a.serverTs == b.serverTs <==> a.eventId == b.eventId)
  }

  predicate TimesTell(events: seq<IngestEvent>)
    requires AllInRange(events)
  {
    forall i, j :: 0 <= i < j < |events| ==>
      (SentAt(events[i]) == SentAt(events[j]) <==> events[i].externalId == events[j].externalId)
  }

  /** Events of this id come before all others. */
  predicate Leads(last: Option<string>, events: seq<IngestEvent>) {
    forall i, j :: 0 <= i < j < |events| && last == Some(events[j].externalId) ==> last == Some(events[i].externalId)
  }

  predicate OnceEach(events: seq<IngestEvent>) {
    forall i, j :: 0 <= i < j < |events| ==> events[i].externalId != events[j].externalId
  }

  lemma HeadLeads(sorted: seq<IngestEvent>)
    requires AllInRange(sorted) && Ascending(sorted) && TimesTell(sorted) && sorted != []
    ensures Leads(Some(sorted[0].externalId), sorted[1..])
  {
    hide MatrixAdapter.Dated;
    var tail := sorted[1..];
    forall i, j | 0 <= i < j < |tail| && tail[j].externalId == sorted[0].externalId
      ensures tail[i].externalId == sorted[0].externalId
    {
      assert tail[i] == sorted[i + 1] && tail[j] == sorted[j + 1];
    }
  }

  lemma {:induction false} DedupOnce(last: Option<string>, sorted: seq<IngestEvent>)
    requires AllInRange(sorted) && Ascending(sorted) && TimesTell(sorted) && Leads(last, sorted)
    ensures OnceEach(DedupFrom(last, sorted))
    ensures forall e :: e in DedupFrom(last, sorted) ==> last != Some(e.externalId)
    decreases |sorted|
  {
    hide MatrixAdapter.Dated;
    if sorted != [] {
      var head, tail := sorted[0], sorted[1..];
      HeadLeads(sorted);
      DedupOnce(Some(head.externalId), tail);
      if last != Some(head.externalId) {
        DedupMembers(Some(head.externalId), tail);
        NoneLeads(last, sorted);
      }
    }
  }

  /** If the first event is not of this id, none is. */
  lemma NoneLeads(last: Option<string>, events: seq<IngestEvent>)
    requires Leads(last, events) && events != [] && last != Some(events[0].externalId)
    ensures forall e :: e in events ==> last != Some(e.externalId)
  {
  }

  lemma PairTells(view: seq<RawEvent>, self: Option<string>, cutoff: Option<nat>, a: IngestEvent, b: IngestEvent)
    requires TimesTellEvents(view) && a in Collect(view, self, cutoff) && b in Collect(view, self, cutoff)
    ensures Dated(a) && Dated(b) && (SentAt(a) == SentAt(b) <==> a.externalId == b.externalId)
  {
    CollectMembers(view, self, cutoff, a);
    CollectMembers(view, self, cutoff, b);
  }

  lemma SortedTells(view: seq<RawEvent>, self: Option<string>, cutoff: Option<nat>)
    requires FourDigitYears(view) && TimesTellEvents(view)
    ensures var sorted := StableSort.Sort(Earlier, Collect(view, self, cutoff));
      AllInRange(sorted) && Ascending(sorted) && TimesTell(sorted)
  {
    hide HistoryWalk.Collect, StableSort.Sort, MatrixAdapter.ShouldIngestEvent, Timestamps.Render, TimesTellEvents;
    var found := Collect(view, self, cutoff);
    CollectInRange(view, self, cutoff);
    SortAscends(found);
    StableSort.SortMembers(Earlier, found);
    var sorted := StableSort.Sort(Earlier, found);
    forall i, j | 0 <= i < j < |sorted|
      ensures SentAt(sorted[i]) == SentAt(sorted[j]) <==> sorted[i].externalId == sorted[j].externalId
    {
      assert sorted[i] in multiset(sorted) && sorted[j] in multiset(sorted);
      PairTells(view, self, cutoff, sorted[i], sorted[j]);
    }
  }

  /** However the server cuts and repeats its pages, and in whatever order, a fetch lists each event once, if
      only different events have different times. */
  lemma HistoryListsOnce(server: Server, self: Option<string>, cutoff: Option<nat>)
    requires FourDigitYears(Flatten(server.pages)) && TimesTellEvents(Flatten(server.pages))
    requires History(server, self, cutoff).Ok?
    ensures OnceEach(History(server, self, cutoff).value)
  {
    hide HistoryWalk.WalkFrom, HistoryWalk.Collect, StopsAt, Flatten, Ingestable;
    var pages := server.pages;
    var stop := StopExists(pages, 0, cutoff);
    StopInside(pages, stop, cutoff);
    WalkReadsPages(server, 0, stop, self, cutoff);
    assert pages[0..stop] == pages[..stop] && pages[..stop] + pages[stop..] == pages;
    FlattenAppend(pages[..stop], pages[stop..]);
    var view := Flatten(pages[..stop]);
    assert forall raw :: raw in view ==> raw in Flatten(pages);
    SortedTells(view, self, cutoff);
    DedupOnce(None, StableSort.Sort(Earlier, Collect(view, self, cutoff)));
  }

  lemma StopInside(pages: seq<seq<RawEvent>>, stop: nat, cutoff: Option<nat>)
    requires StopsAt(pages, 0, stop, cutoff)
    ensures stop <= |pages|
  {
  }
}
