/** Paging backwards through a room until the first page that reaches known history. */
module HistoryWalk {
  import opened Options
  import opened Timestamps
  import opened MatrixAdapter
  import StableSort

  // ---- The server ----

  /** What the last page's `end` token says: nothing, the same token again, or a token
      whose page is empty. */
  datatype FinalEnd = NoToken | RepeatedToken | TokenToNothing

  /** A room's pages, newest first. A token is the number of the page it leads to, and asking
      for page `failsAt` is an error. */
  datatype Server = Server(pages: seq<seq<RawEvent>>, finalEnd: FinalEnd, failsAt: Option<nat>) {

    function Chunk(token: Option<nat>): seq<RawEvent> {
      if token.GetOr(0) < |pages| then pages[token.GetOr(0)] else []
    }

    function End(token: Option<nat>): Option<nat> {
      var next := token.GetOr(0) + 1;
      if next < |pages| then Some(next)
      else match finalEnd
        case NoToken => None
        case RepeatedToken => if token.Some? then token else Some(next)
        case TokenToNothing => Some(next)
    }
  }

  // ---- What the walk returns, page by page ----

  predicate TooOld(raw: RawEvent, cutoff: Option<nat>) {
    raw.Raw? && cutoff.Some? && TimeOf(raw) <= cutoff.value
  }

  /** What one entry gives to store. */
  function Taken(raw: RawEvent, self: Option<string>, cutoff: Option<nat>): seq<IngestEvent> {
    var parsed := ParseTimelineEvent(raw, self);
    if TooOld(raw, cutoff) || parsed.None? then [] else [parsed.value]
  }

  /** The events of a chunk worth storing, in the order delivered. */
  function Collect(chunk: seq<RawEvent>, self: Option<string>, cutoff: Option<nat>): seq<IngestEvent> {
    if chunk == [] then [] else Taken(chunk[0], self, cutoff) + Collect(chunk[1..], self, cutoff)
  }

  predicate ReachesCutoff(chunk: seq<RawEvent>, cutoff: Option<nat>) {
    exists raw :: raw in chunk && TooOld(raw, cutoff)
  }

  predicate LastPage(server: Server, page: nat) {
    page + 1 >= |server.pages| && (server.finalEnd.NoToken? || (server.finalEnd.RepeatedToken? && page > 0))
  }

  function WalkFrom(server: Server, page: nat, self: Option<string>, cutoff: Option<nat>): Result<seq<IngestEvent>>
    decreases |server.pages| - page
  {
    if server.failsAt == Some(page) then Err
    else if page >= |server.pages| || server.pages[page] == [] then Ok([])
    else
      var here := Collect(server.pages[page], self, cutoff);
      if ReachesCutoff(server.pages[page], cutoff) || LastPage(server, page) then Ok(here)
      else Prepend(here, WalkFrom(server, page + 1, self, cutoff))
  }

  // ---- Sorting and removing repeats, as the standard library does ----

  predicate Earlier(left: IngestEvent, right: IngestEvent) {
    LexLess(left.occurredAt, right.occurredAt)
  }

  /** Of neighbours with one id, only the first stays. */
  function DedupFrom(last: Option<string>, events: seq<IngestEvent>): seq<IngestEvent>
    decreases |events|
  {
    if events == [] then []
    else if last == Some(events[0].externalId) then DedupFrom(last, events[1..])
    else [events[0]] + DedupFrom(Some(events[0].externalId), events[1..])
  }

  /** A stable sort by the text of the timestamp, then repeats removed. */
  function Finish(events: seq<IngestEvent>): seq<IngestEvent> {
    DedupFrom(None, StableSort.Sort(Earlier, events))
  }

  function History(server: Server, self: Option<string>, cutoff: Option<nat>): Result<seq<IngestEvent>> {
    match WalkFrom(server, 0, self, cutoff)
    case Err => Err
    case Ok(events) => Ok(Finish(events))
  }

  // ---- The loop ----

  lemma {:induction false} CollectAppend(a: seq<RawEvent>, b: seq<RawEvent>, self: Option<string>, cutoff: Option<nat>)
    ensures Collect(a + b, self, cutoff) == Collect(a, self, cutoff) + Collect(b, self, cutoff)
  {
    hide Taken;
    if a == [] {
      assert a + b == b;
    } else {
      assert (a + b)[0] == a[0] && (a + b)[1..] == a[1..] + b;
      CollectAppend(a[1..], b, self, cutoff);
    }
  }

  lemma CollectOne(raw: RawEvent, self: Option<string>, cutoff: Option<nat>)
    ensures Collect([raw], self, cutoff) ==
      var parsed := ParseTimelineEvent(raw, self);
      if TooOld(raw, cutoff) || parsed.None? then [] else [parsed.value]
  {
    assert [raw][1..] == [];
  }

  /** The least time in a chunk, undecodable entries aside. */
  function OldestSeen(chunk: seq<RawEvent>): Option<nat> {
    if chunk == [] then None else
      var before, raw := OldestSeen(chunk[..|chunk| - 1]), chunk[|chunk| - 1];
      if raw.Malformed? || (before.Some? && before.value < TimeOf(raw)) then before else Some(TimeOf(raw))
  }

  lemma {:induction false} OldestSeenReaches(chunk: seq<RawEvent>, cutoff: nat)
    ensures (OldestSeen(chunk).Some? && OldestSeen(chunk).value <= cutoff) <==> ReachesCutoff(chunk, Some(cutoff))
  {
    if chunk != [] {
      var init, raw := chunk[..|chunk| - 1], chunk[|chunk| - 1];
      assert chunk == init + [raw];
      OldestSeenReaches(init, cutoff);
      assert ReachesCutoff(chunk, Some(cutoff)) <==> ReachesCutoff(init, Some(cutoff)) || TooOld(raw, Some(cutoff));
    }
  }

  /** What reading entry `i` adds to the events found so far. */
  lemma ReadOne(chunk: seq<RawEvent>, i: nat, self: Option<string>, cutoff: Option<nat>,
                before: seq<IngestEvent>, sofar: seq<IngestEvent>)
    requires i < |chunk| && sofar == before + Collect(chunk[..i], self, cutoff)
    ensures var parsed := ParseTimelineEvent(chunk[i], self);
      before + Collect(chunk[..i + 1], self, cutoff)
        == if TooOld(chunk[i], cutoff) || parsed.None? then sofar else sofar + [parsed.value]
    ensures var oldest := OldestSeen(chunk[..i]);
      OldestSeen(chunk[..i + 1]) ==
        if chunk[i].Malformed? || (oldest.Some? && oldest.value < TimeOf(chunk[i])) then oldest
        else Some(TimeOf(chunk[i]))
  {
    hide MatrixAdapter.ParseTimelineEvent, MatrixAdapter.Dated, MatrixAdapter.ShouldIngestEvent;
    var parsed := ParseTimelineEvent(chunk[i], self);
    assert chunk[..i + 1] == chunk[..i] + [chunk[i]] && chunk[..i + 1][..i] == chunk[..i];
    CollectAppend(chunk[..i], [chunk[i]], self, cutoff);
    CollectOne(chunk[i], self, cutoff);
    var c := Collect(chunk[..i], self, cutoff);
    assert c + [] == c;
    assert parsed.Some? ==> before + (c + [parsed.value]) == before + c + [parsed.value];
  }

  /** Reads one page into the events found so far, and says how old the page goes. */
  method ReadChunk(chunk: seq<RawEvent>, self: Option<string>, cutoff: Option<nat>, before: seq<IngestEvent>)
    returns (events: seq<IngestEvent>, oldestSeen: Option<nat>)
    ensures events == before + Collect(chunk, self, cutoff)
    ensures oldestSeen == OldestSeen(chunk)
  {
    hide MatrixAdapter.ParseTimelineEvent, MatrixAdapter.Dated, MatrixAdapter.ShouldIngestEvent;
    events, oldestSeen := before, None;
    for i := 0 to |chunk|
      invariant events == before + Collect(chunk[..i], self, cutoff)
      invariant oldestSeen == OldestSeen(chunk[..i])
    {
      var raw := chunk[i];
      ReadOne(chunk, i, self, cutoff, before, events);
      if raw.Malformed? { continue; }
      var ts := TimeOf(raw);
      oldestSeen := Some(if oldestSeen.Some? && oldestSeen.value < ts then oldestSeen.value else ts);
      if cutoff.Some? && ts <= cutoff.value { continue; }
      var parsed := ParseTimelineEvent(raw, self);
      if parsed.Some? { events := events + [parsed.value]; }
    }
    assert chunk[..|chunk|] == chunk;
  }

  function Prepend(events: seq<IngestEvent>, rest: Result<seq<IngestEvent>>): Result<seq<IngestEvent>> {
    match rest
    case Err => Err
    case Ok(older) => Ok(events + older)
  }

  method FetchRoomHistory(server: Server, self: Option<string>, cutoff: Option<nat>)
    returns (result: Result<seq<IngestEvent>>)
    ensures result == History(server, self, cutoff)
  {
    hide MatrixAdapter.ParseTimelineEvent, MatrixAdapter.Dated, MatrixAdapter.ShouldIngestEvent;
    hide Collect, OldestSeen, Finish;
    var token: Option<nat> := None;
    var events: seq<IngestEvent> := [];
    ghost var page := 0;
    ghost var whole := WalkFrom(server, 0, self, cutoff);
    assert whole.Ok? ==> [] + whole.value == whole.value;
    while true
      invariant token == (if page == 0 then None else Some(page)) && page <= |server.pages|
      invariant whole == Prepend(events, WalkFrom(server, page, self, cutoff))
      decreases |server.pages| - page
    {
      if server.failsAt == Some(token.GetOr(0)) { return Err; }
      var chunk := server.Chunk(token);
      if chunk == [] {
        assert whole == Ok(events + []) && events + [] == events;
        break;
      }
      var nextToken := server.End(token);
      var oldestSeen;
      ghost var newer := events;
      events, oldestSeen := ReadChunk(chunk, self, cutoff, events);
      if cutoff.Some? { OldestSeenReaches(chunk, cutoff.value); }
      if cutoff.Some? && oldestSeen.Some? && oldestSeen.value <= cutoff.value {
        assert whole == Ok(events);
        break;
      }
      if nextToken.None? || nextToken == token {
        assert whole == Ok(events);
        break;
      }
      PrependTwice(newer, Collect(chunk, self, cutoff), WalkFrom(server, page + 1, self, cutoff));
      token := nextToken;
      page := page + 1;
    }
    return Ok(Finish(events));
  }

  lemma PrependTwice(a: seq<IngestEvent>, b: seq<IngestEvent>, rest: Result<seq<IngestEvent>>)
    ensures Prepend(a, Prepend(b, rest)) == Prepend(a + b, rest)
  {
    if rest.Ok? { assert a + (b + rest.value) == a + b + rest.value; }
  }
}
