/** What a walk finds, stated on the room's timeline instead of on the loop. */
module WalkProperties {
  import opened Options
  import opened Timestamps
  import opened MatrixAdapter
  import opened HistoryWalk
  import StableSort

  function Flatten(pages: seq<seq<RawEvent>>): seq<RawEvent> {
    if pages == [] then [] else pages[0] + Flatten(pages[1..])
  }

  lemma {:induction false} FlattenAppend(a: seq<seq<RawEvent>>, b: seq<seq<RawEvent>>)
    ensures Flatten(a + b) == Flatten(a) + Flatten(b)
  {
    if a == [] {
      assert a + b == b;
    } else {
      assert (a + b)[1..] == a[1..] + b;
      FlattenAppend(a[1..], b);
    }
  }

  lemma {:induction false} FlattenMember(pages: seq<seq<RawEvent>>, raw: RawEvent) returns (p: nat)
    requires raw in Flatten(pages)
    ensures p < |pages| && raw in pages[p]
  {
    if raw in pages[0] {
      p := 0;
    } else {
      p := FlattenMember(pages[1..], raw);
      p := p + 1;
    }
  }

  lemma {:induction false} MemberFlattened(pages: seq<seq<RawEvent>>, p: nat, raw: RawEvent)
    requires p < |pages| && raw in pages[p]
    ensures raw in Flatten(pages)
  {
    if p > 0 { MemberFlattened(pages[1..], p - 1, raw); }
  }

  /** The walk reads pages `from` to `stop` and no more: `stop` follows the first page that
      reaches the cutoff, or is the first empty page, or the end. */
  predicate StopsAt(pages: seq<seq<RawEvent>>, from: nat, stop: nat, cutoff: Option<nat>) {
    && from <= stop <= |pages|
    && (forall p :: from <= p < stop ==> pages[p] != [])
    && (forall p :: from <= p < stop - 1 ==> !ReachesCutoff(pages[p], cutoff))
    && (stop < |pages| && pages[stop] != [] ==> from < stop && ReachesCutoff(pages[stop - 1], cutoff))
  }

  /** On any timestamps at all, a walk that succeeds returns what is worth storing in the
      pages up to the first one holding an entry at or before the cutoff. */
  lemma {:induction false} WalkReadsPages(server: Server, from: nat, stop: nat, self: Option<string>,
                                          cutoff: Option<nat>)
    requires StopsAt(server.pages, from, stop, cutoff)
    requires WalkFrom(server, from, self, cutoff).Ok?
    ensures WalkFrom(server, from, self, cutoff).value == Collect(Flatten(server.pages[from..stop]), self, cutoff)
    decreases stop - from
  {
    hide HistoryWalk.Taken, HistoryWalk.ReachesCutoff;
    var pages := server.pages[from..stop];
    if from < stop {
      assert pages[0] == server.pages[from] && pages[1..] == server.pages[from + 1..stop];
      CollectAppend(pages[0], Flatten(pages[1..]), self, cutoff);
      if ReachesCutoff(server.pages[from], cutoff) || LastPage(server, from) {
        assert stop == from + 1;
        assert Flatten(pages) == pages[0] + [] && pages[0] + [] == pages[0];
      } else {
        WalkReadsPages(server, from + 1, stop, self, cutoff);
      }
    }
  }

  /** Every walk has a place to stop. */
  lemma {:induction false} StopExists(pages: seq<seq<RawEvent>>, from: nat, cutoff: Option<nat>) returns (stop: nat)
    requires from <= |pages|
    ensures StopsAt(pages, from, stop, cutoff)
    decreases |pages| - from
  {
    if from == |pages| || pages[from] == [] {
      stop := from;
    } else if ReachesCutoff(pages[from], cutoff) {
      stop := from + 1;
    } else {
      stop := StopExists(pages, from + 1, cutoff);
    }
  }

  /** The walk needs every request up to where it stops to succeed, and nothing after. */
  lemma {:induction false} WalkSucceeds(server: Server, from: nat, stop: nat, self: Option<string>, cutoff: Option<nat>)
    requires StopsAt(server.pages, from, stop, cutoff)
    requires server.failsAt.None?
    ensures WalkFrom(server, from, self, cutoff).Ok?
    decreases stop - from
  {
    hide MatrixAdapter.ParseTimelineEvent, MatrixAdapter.Dated;
    if from < stop && !ReachesCutoff(server.pages[from], cutoff) && !LastPage(server, from) {
      WalkSucceeds(server, from + 1, stop, self, cutoff);
    }
  }

  /** An entry without a timestamp counts as sent at time zero, so with any cutoff the walk reads no
      page after its own, whatever newer events those hold. */
  lemma UntimedEntryEndsWalk(server: Server, self: Option<string>, cutoff: nat, p: nat, raw: RawEvent)
    returns (stop: nat)
    requires p < |server.pages| && raw in server.pages[p] && raw.Raw? && raw.serverTs.None?
    requires WalkFrom(server, 0, self, Some(cutoff)).Ok?
    ensures stop <= p + 1 && stop <= |server.pages| && StopsAt(server.pages, 0, stop, Some(cutoff))
    ensures WalkFrom(server, 0, self, Some(cutoff)).value == Collect(Flatten(server.pages[..stop]), self, Some(cutoff))
  {
    hide HistoryWalk.Collect, HistoryWalk.WalkFrom;
    assert TooOld(raw, Some(cutoff));
    stop := StopExists(server.pages, 0, Some(cutoff));
    WalkReadsPages(server, 0, stop, self, Some(cutoff));
    assert server.pages[0..stop] == server.pages[..stop];
  }

  // ---- Timelines in order ----

  /** Newest first: times never grow along the timeline (undecodable entries have none). */
  predicate NewestFirst(view: seq<RawEvent>) {
    forall i, j :: 0 <= i < j < |view| && view[i].Raw? && view[j].Raw? ==> TimeOf(view[i]) >= TimeOf(view[j])
  }

  predicate FourDigitYears(view: seq<RawEvent>) {
    forall raw :: raw in view && raw.Raw? ==> TimeOf(raw) < Y10K_MS
  }

  /** One event id, one time. */
  predicate IdsFixTimes(view: seq<RawEvent>) {
    forall a, b :: a in view && b in view && a.Raw? && b.Raw? && a.eventId == b.eventId ==> a.serverTs == b.serverTs
  }

  lemma {:induction false} CollectMembers(view: seq<RawEvent>, self: Option<string>, cutoff: Option<nat>,
                                          e: IngestEvent)
    ensures e in Collect(view, self, cutoff) <==>
      (e.rawEvent in view && ParseTimelineEvent(e.rawEvent, self) == Some(e) && !TooOld(e.rawEvent, cutoff))
  {
    hide MatrixAdapter.ParseTimelineEvent, MatrixAdapter.Dated;
    if view != [] {
      CollectMembers(view[1..], self, cutoff, e);
      assert view == [view[0]] + view[1..];
    }
  }

  lemma {:induction false} CollectNothing(view: seq<RawEvent>, self: Option<string>, cutoff: Option<nat>)
    requires forall raw :: raw in view && raw.Raw? ==> TooOld(raw, cutoff)
    ensures Collect(view, self, cutoff) == []
  {
    hide MatrixAdapter.ParseTimelineEvent, MatrixAdapter.Dated;
    if view != [] { CollectNothing(view[1..], self, cutoff); }
  }

  /** On an ordered timeline everything after an entry that is too old is too old. */
  lemma OlderToo(read: seq<RawEvent>, rest: seq<RawEvent>, raw: RawEvent, other: RawEvent, cutoff: Option<nat>)
    requires NewestFirst(read + rest) && raw in read && TooOld(raw, cutoff) && other in rest && other.Raw?
    ensures TooOld(other, cutoff)
  {
    var i :| 0 <= i < |read| && read[i] == raw;
    var j :| 0 <= j < |rest| && rest[j] == other;
    assert (read + rest)[i] == raw && (read + rest)[|read| + j] == other;
  }

  /** On an ordered timeline nothing worth storing lies past the stop. */
  lemma StopLosesNothing(server: Server, self: Option<string>, cutoff: Option<nat>)
    requires forall p :: 0 <= p < |server.pages| ==> server.pages[p] != []
    requires NewestFirst(Flatten(server.pages))
    requires WalkFrom(server, 0, self, cutoff).Ok?
    ensures WalkFrom(server, 0, self, cutoff).value == Collect(Flatten(server.pages), self, cutoff)
  {
    hide MatrixAdapter.ParseTimelineEvent, MatrixAdapter.Dated, HistoryWalk.TooOld, HistoryWalk.WalkFrom;
    var pages := server.pages;
    var stop := StopExists(pages, 0, cutoff);
    WalkReadsPages(server, 0, stop, self, cutoff);
    var read, rest := Flatten(pages[..stop]), Flatten(pages[stop..]);
    assert pages[..stop] + pages[stop..] == pages && pages[0..stop] == pages[..stop];
    FlattenAppend(pages[..stop], pages[stop..]);
    CollectAppend(read, rest, self, cutoff);
    if stop < |pages| {
      RestTooOld(pages, stop, cutoff);
      CollectNothing(rest, self, cutoff);
    } else {
      assert pages[stop..] == [] && Flatten(pages[stop..]) == [];
    }
    assert Collect(read, self, cutoff) + [] == Collect(read, self, cutoff);
  }

  lemma OldEntry(page: seq<RawEvent>, cutoff: Option<nat>) returns (raw: RawEvent)
    requires ReachesCutoff(page, cutoff)
    ensures raw in page && TooOld(raw, cutoff)
  {
    raw :| raw in page && TooOld(raw, cutoff);
  }

  lemma RestTooOld(pages: seq<seq<RawEvent>>, stop: nat, cutoff: Option<nat>)
    requires NewestFirst(Flatten(pages)) && 0 < stop < |pages| && ReachesCutoff(pages[stop - 1], cutoff)
    ensures forall other :: other in Flatten(pages[stop..]) && other.Raw? ==> TooOld(other, cutoff)
  {
    hide HistoryWalk.TooOld, HistoryWalk.ReachesCutoff, NewestFirst, Flatten;
    var read, rest := Flatten(pages[..stop]), Flatten(pages[stop..]);
    assert pages[..stop] + pages[stop..] == pages;
    FlattenAppend(pages[..stop], pages[stop..]);
    var raw := OldEntry(pages[stop - 1], cutoff);
    MemberFlattened(pages[..stop], stop - 1, raw);
    forall other | other in rest && other.Raw? ensures TooOld(other, cutoff) {
      OlderToo(read, rest, raw, other, cutoff);
    }
  }

  // ---- Sorting, removing repeats and filtering by time commute ----

  predicate InRange(e: IngestEvent) {
    Dated(e) && SentAt(e) < Y10K_MS
  }

  predicate AllInRange(events: seq<IngestEvent>) {
    forall i :: 0 <= i < |events| ==> InRange(events[i])
  }

  predicate Ascending(events: seq<IngestEvent>)
    requires AllInRange(events)
  {
    forall i, j :: 0 <= i < j < |events| ==> SentAt(events[i]) <= SentAt(events[j])
  }

  predicate SentAfter(cutoff: nat, e: IngestEvent) {
    e.rawEvent.Raw? && TimeOf(e.rawEvent) > cutoff
  }

  function Newer(events: seq<IngestEvent>, cutoff: nat): seq<IngestEvent> {
    StableSort.Filter(e => SentAfter(cutoff, e), events)
  }

  lemma EarlierOrders()
    ensures StableSort.Orders(Earlier, InRange)
    ensures forall a, b :: InRange(a) && InRange(b) ==> (Earlier(a, b) <==> SentAt(a) < SentAt(b))
  {
    forall a, b | InRange(a) && InRange(b)
      ensures Earlier(a, b) <==> SentAt(a) < SentAt(b)
    {
      RenderInjective(SentAt(a), SentAt(b));
    }
    forall a, b, c | InRange(a) && InRange(b) && InRange(c) && Earlier(a, c)
      ensures Earlier(a, b) || Earlier(b, c)
    {
    }
  }

  lemma SortAscends(events: seq<IngestEvent>)
    requires AllInRange(events)
    ensures var sorted := StableSort.Sort(Earlier, events);
      AllInRange(sorted) && Ascending(sorted)
  {
    EarlierOrders();
    assert StableSort.AllValid(InRange, events);
    StableSort.SortOrdered(Earlier, InRange, events);
    var sorted := StableSort.Sort(Earlier, events);
    forall i, j | 0 <= i < j < |sorted|
      ensures SentAt(sorted[i]) <= SentAt(sorted[j])
    {
      assert InRange(sorted[i]) && InRange(sorted[j]) && !Earlier(sorted[j], sorted[i]);
    }
  }

  lemma NewerSort(events: seq<IngestEvent>, cutoff: nat)
    requires AllInRange(events)
    ensures Newer(StableSort.Sort(Earlier, events), cutoff) == StableSort.Sort(Earlier, Newer(events, cutoff))
  {
    EarlierOrders();
    StableSort.FilterSort(Earlier, InRange, e => SentAfter(cutoff, e), events);
  }

  lemma NewerTaken(raw: RawEvent, self: Option<string>, cutoff: nat)
    ensures Newer(Taken(raw, self, None), cutoff) == Taken(raw, self, Some(cutoff))
  {
    hide MatrixAdapter.ParseTimelineEvent, MatrixAdapter.ShouldIngestEvent, StableSort.Filter;
    var parsed := ParseTimelineEvent(raw, self);
    if parsed.Some? { FilterOne(e => SentAfter(cutoff, e), parsed.value); } else { NewerNothing(cutoff); }
  }

  lemma FilterOne<T>(keep: T -> bool, x: T)
    ensures StableSort.Filter(keep, [x]) == if keep(x) then [x] else []
  {
    assert [x][1..] == [];
  }

  lemma {:induction false} FilterAppend<T>(keep: T -> bool, a: seq<T>, b: seq<T>)
    ensures StableSort.Filter(keep, a + b) == StableSort.Filter(keep, a) + StableSort.Filter(keep, b)
  {
    if a == [] {
      assert a + b == b;
    } else {
      assert (a + b)[1..] == a[1..] + b;
      FilterAppend(keep, a[1..], b);
    }
  }

  lemma {:induction false} NewerCollect(view: seq<RawEvent>, self: Option<string>, cutoff: nat)
    ensures Newer(Collect(view, self, None), cutoff) == Collect(view, self, Some(cutoff))
  {
    hide HistoryWalk.Taken, SentAfter;
    if view == [] {
      NewerNothing(cutoff);
    } else {
      NewerCollect(view[1..], self, cutoff);
      NewerTaken(view[0], self, cutoff);
      FilterAppend(e => SentAfter(cutoff, e), Taken(view[0], self, None), Collect(view[1..], self, None));
    }
  }

  lemma NewerNothing(cutoff: nat)
    ensures Newer([], cutoff) == []
  {
  }

  predicate IdsDated(events: seq<IngestEvent>)
    requires AllInRange(events)
  {
    forall i, j :: 0 <= i < j < |events| && events[i].externalId == events[j].externalId
      ==> SentAt(events[i]) == SentAt(events[j])
  }

  /** An ascending run that starts past the cutoff lies wholly past it. */
  lemma {:induction false} AllNewer(sorted: seq<IngestEvent>, cutoff: nat)
    requires AllInRange(sorted) && Ascending(sorted)
    requires sorted != [] ==> SentAfter(cutoff, sorted[0])
    ensures Newer(sorted, cutoff) == sorted
  {
    if sorted != [] {
      AllNewer(sorted[1..], cutoff);
    }
  }

  lemma AscendingAfter(sorted: seq<IngestEvent>, cutoff: nat)
    requires AllInRange(sorted) && Ascending(sorted)
    requires sorted != [] && SentAfter(cutoff, sorted[0])
    ensures forall e :: e in sorted ==> SentAfter(cutoff, e)
  {
    forall i | 0 <= i < |sorted| ensures SentAfter(cutoff, sorted[i]) {
      assert InRange(sorted[i]) && SentAt(sorted[0]) <= SentAt(sorted[i]);
    }
  }

  lemma {:induction false} DedupMembers(last: Option<string>, events: seq<IngestEvent>)
    ensures forall e :: e in DedupFrom(last, events) ==> e in events
    decreases |events|
  {
    if events != [] {
      DedupMembers(last, events[1..]);
      DedupMembers(Some(events[0].externalId), events[1..]);
    }
  }

  /** Whether `last` names an event at or before the cutoff, it removes nothing past it. */
  lemma {:induction false} DedupForgets(last: Option<string>, sorted: seq<IngestEvent>)
    requires forall e :: e in sorted ==> Some(e.externalId) != last
    ensures DedupFrom(last, sorted) == DedupFrom(None, sorted)
  {
  }

  lemma IdsApart(sorted: seq<IngestEvent>, cutoff: nat)
    requires AllInRange(sorted) && IdsDated(sorted) && sorted != [] && !SentAfter(cutoff, sorted[0])
    ensures forall e :: e in sorted[1..] && SentAfter(cutoff, e) ==> e.externalId != sorted[0].externalId
  {
    forall e | e in sorted[1..] && SentAfter(cutoff, e) ensures e.externalId != sorted[0].externalId {
      var j :| 0 <= j < |sorted[1..]| && sorted[1..][j] == e;
      assert sorted[j + 1] == e && InRange(sorted[j + 1]) && InRange(sorted[0]);
    }
  }

  /** Removing neighbouring repeats does not look across the cutoff. */
  lemma {:induction false} NewerDedup(last: Option<string>, sorted: seq<IngestEvent>, cutoff: nat)
    requires AllInRange(sorted) && Ascending(sorted) && IdsDated(sorted)
    requires forall e :: e in sorted && SentAfter(cutoff, e) ==> Some(e.externalId) != last
    ensures Newer(DedupFrom(last, sorted), cutoff) == DedupFrom(None, Newer(sorted, cutoff))
    decreases |sorted|
  {
    hide MatrixAdapter.Dated;
    if sorted != [] {
      var head, tail := sorted[0], sorted[1..];
      if SentAfter(cutoff, head) {
        AllNewer(sorted, cutoff);
        AscendingAfter(sorted, cutoff);
        forall e | e in DedupFrom(last, sorted) ensures SentAfter(cutoff, e) {
          DedupMembers(last, sorted);
        }
        StableSortFilterAll(DedupFrom(last, sorted), cutoff);
        DedupForgets(last, sorted);
      } else if last == Some(head.externalId) {
        NewerDedup(last, tail, cutoff);
      } else {
        IdsApart(sorted, cutoff);
        NewerDedup(Some(head.externalId), tail, cutoff);
      }
    }
  }

  lemma {:induction false} StableSortFilterAll(events: seq<IngestEvent>, cutoff: nat)
    requires forall e :: e in events ==> SentAfter(cutoff, e)
    ensures Newer(events, cutoff) == events
  {
    if events != [] { StableSortFilterAll(events[1..], cutoff); }
  }

  predicate OrderedTimeline(view: seq<RawEvent>) {
    NewestFirst(view) && FourDigitYears(view) && IdsFixTimes(view)
  }

  lemma CollectInRange(view: seq<RawEvent>, self: Option<string>, cutoff: Option<nat>)
    requires FourDigitYears(view)
    ensures AllInRange(Collect(view, self, cutoff))
  {
    var events := Collect(view, self, cutoff);
    forall i | 0 <= i < |events| ensures InRange(events[i]) {
      CollectMembers(view, self, cutoff, events[i]);
    }
  }

  /** On an ordered timeline, stopping early at a cutoff finds exactly what walking the whole
      room would find after the cutoff, oldest first, however the server cuts its pages. */
  lemma EarlyStopRefinesFullWalk(server: Server, self: Option<string>, cutoff: nat)
    requires forall p :: 0 <= p < |server.pages| ==> server.pages[p] != []
    requires OrderedTimeline(Flatten(server.pages))
    requires server.failsAt.None?
    ensures var full, early := History(server, self, None), History(server, self, Some(cutoff));
      && full.Ok? && early == Ok(Newer(full.value, cutoff))
      && AllInRange(early.value) && Ascending(early.value)
  {
    hide MatrixAdapter.ParseTimelineEvent, MatrixAdapter.Dated;
    var view := Flatten(server.pages);
    var s1 := StopExists(server.pages, 0, None);
    WalkSucceeds(server, 0, s1, self, None);
    var s2 := StopExists(server.pages, 0, Some(cutoff));
    WalkSucceeds(server, 0, s2, self, Some(cutoff));
    StopLosesNothing(server, self, None);
    StopLosesNothing(server, self, Some(cutoff));
    var all := Collect(view, self, None);
    CollectInRange(view, self, None);
    NewerCollect(view, self, cutoff);
    NewerSort(all, cutoff);
    SortAscends(all);
    var sorted := StableSort.Sort(Earlier, all);
    SortedIdsDated(view, self);
    NewerDedup(None, sorted, cutoff);
    CollectInRange(view, self, Some(cutoff));
    SortAscends(Collect(view, self, Some(cutoff)));
    DedupAscends(None, StableSort.Sort(Earlier, Collect(view, self, Some(cutoff))));
  }

  lemma SortedIdsDated(view: seq<RawEvent>, self: Option<string>)
    requires OrderedTimeline(view)
    ensures var sorted := StableSort.Sort(Earlier, Collect(view, self, None));
      AllInRange(sorted) && IdsDated(sorted)
  {
    var all := Collect(view, self, None);
    CollectInRange(view, self, None);
    SortAscends(all);
    StableSort.SortMembers(Earlier, all);
    var sorted := StableSort.Sort(Earlier, all);
    forall i, j | 0 <= i < j < |sorted| && sorted[i].externalId == sorted[j].externalId
      ensures SentAt(sorted[i]) == SentAt(sorted[j])
    {
      assert sorted[i] in sorted && sorted[j] in sorted;
      CollectMembers(view, self, None, sorted[i]);
      CollectMembers(view, self, None, sorted[j]);
    }
  }

  lemma {:induction false} DedupAscends(last: Option<string>, sorted: seq<IngestEvent>)
    requires AllInRange(sorted) && Ascending(sorted)
    ensures AllInRange(DedupFrom(last, sorted)) && Ascending(DedupFrom(last, sorted))
    decreases |sorted|
  {
    hide MatrixAdapter.Dated;
    if sorted != [] {
      DedupAscends(last, sorted[1..]);
      var rest := DedupFrom(Some(sorted[0].externalId), sorted[1..]);
      DedupAscends(Some(sorted[0].externalId), sorted[1..]);
      DedupMembers(Some(sorted[0].externalId), sorted[1..]);
      forall j | 0 <= j < |rest| ensures SentAt(sorted[0]) <= SentAt(rest[j]) {
        assert rest[j] in rest;
        var k :| 0 <= k < |sorted[1..]| && sorted[1..][k] == rest[j];
        assert sorted[k + 1] == rest[j];
      }
    }
  }
}
