/** Backfilling one Telegram dialog: pages newest first, with a mark written after every page. */
module Telegram {
  const PAGE := 100

  type Id = int

  /** `fetch(limit, offsetId, minId)` is the remote call; offset 0 means from the newest. */
  type Fetch = (int, Id, Id) -> seq<Id>

  /** The database writes of a run, in order. */
  datatype Write = Ingest(id: Id) | Mark(id: Id)

  function Min(a: int, b: int): int {
    if a < b then a else b
  }

  function Max(a: int, b: int): int {
    if a > b then a else b
  }

  function Least(page: seq<Id>): Id
    requires page != []
  {
    if |page| == 1 then page[0] else Min(page[0], Least(page[1..]))
  }

  function Greatest(page: seq<Id>, from: Id): Id {
    if page == [] then from else Max(page[0], Greatest(page[1..], from))
  }

  /** A page is ingested from its end. */
  function Ingests(page: seq<Id>): seq<Write> {
    if page == [] then [] else Ingests(page[1..]) + [Ingest(page[0])]
  }

  /** Every write an uninterrupted run makes, whatever the remote side answers. */
  function Walk(fetch: Fetch, remaining: int, offset: Id, min: Id, newest: Id): seq<Write>
    decreases remaining
  {
    if remaining <= 0 then [] else
    var size := Min(remaining, PAGE);
    var page := fetch(size, offset, min);
    if page == [] then [] else
    var top := Greatest(page, newest);
    Ingests(page) + [Mark(Max(min, top))] +
    if |page| < size then [] else Walk(fetch, remaining - |page|, Least(page), min, top)
  }

  // ---- What is stored ----

  datatype Stored = Stored(mark: Id, ingested: seq<Id>)

  function Perform(s: Stored, writes: seq<Write>): Stored {
    if writes == [] then s else
    var before := Perform(s, writes[..|writes| - 1]);
    match writes[|writes| - 1]
    case Ingest(id) => before.(ingested := before.ingested + [id])
    case Mark(id) => before.(mark := id)
  }

  lemma {:induction false} PerformConcat(s: Stored, a: seq<Write>, b: seq<Write>)
    ensures Perform(s, a + b) == Perform(Perform(s, a), b)
  {
    if b == [] {
      assert a + b == a;
    } else {
      assert (a + b)[..|a + b| - 1] == a + b[..|b| - 1];
      PerformConcat(s, a, b[..|b| - 1]);
    }
  }

  function Upto(writes: seq<Write>, n: nat): seq<Write> {
    if n < |writes| then writes[..n] else writes
  }

  class Dialog {
    /** The persisted mark; 0 when there is none. */
    var mark: Id
    var ingested: seq<Id>

    constructor ()
      ensures Now() == Stored(0, [])
    {
      mark, ingested := 0, [];
    }

    function Now(): Stored
      reads this
    {
      Stored(mark, ingested)
    }

    /** Ingest a page from its end; `i` messages are left over if `left` writes do not suffice. */
    method IngestPage(messages: seq<Id>, newest: Id, left: nat) returns (i: nat, newestId: Id)
      modifies this
      ensures i == if left < |messages| then |messages| - left else 0
      ensures Now() == Perform(old(Now()), Ingests(messages[i..]))
      ensures newestId == Greatest(messages[i..], newest)
    {
      i, newestId := |messages|, newest;
      while i > 0 && |messages| - i < left
        invariant 0 <= i <= |messages| && |messages| - i <= left
        invariant Now() == Perform(old(Now()), Ingests(messages[i..]))
        invariant newestId == Greatest(messages[i..], newest)
      {
        i := i - 1;
        assert messages[i..][1..] == messages[i + 1..];
        ghost var rest := Ingests(messages[i + 1..]);
        assert Ingests(messages[i..]) == rest + [Ingest(messages[i])]
            && (rest + [Ingest(messages[i])])[..|rest|] == rest;
        ingested := ingested + [messages[i]];
        newestId := Max(messages[i], newestId);
      }
    }

    /** One backfill of the dialog; it breaks off when `writes` database writes have succeeded. */
    method Backfill(fetch: Fetch, limit: int, writes: nat) returns (finished: bool)
      modifies this
      ensures var all := Walk(fetch, limit, 0, old(mark), old(mark));
        Now() == Perform(old(Now()), Upto(all, writes)) && (finished <==> |all| <= writes)
    {
      hide Perform, Ingests, Least, Greatest, Upto;
      ghost var start, all := Now(), Walk(fetch, limit, 0, mark, mark);
      ghost var made: seq<Write> := [];
      assert Now() == Perform(start, made) by { PerformNothing(start); }
      var left: nat := writes;
      var minId, remaining, offsetId, newestId := mark, limit, 0, mark;
      while remaining > 0
        invariant all == made + Walk(fetch, remaining, offsetId, minId, newestId)
        invariant |made| + left == writes && Now() == Perform(start, made)
        decreases remaining
      {
        var pageSize := Min(remaining, PAGE);
        var messages := fetch(pageSize, offsetId, minId);
        if |messages| == 0 { break; }
        ghost var tail := TailOf(fetch, remaining, messages, pageSize, minId, newestId);
        ghost var top := Max(minId, Greatest(messages, newestId));
        WalkPage(fetch, remaining, offsetId, minId, newestId, messages);
        assert all == made + (Ingests(messages) + [Mark(top)]) + tail;
        var i, newest := IngestPage(messages, newestId, left);
        IngestsPrefix(messages, i);
        PerformConcat(start, made, Ingests(messages[i..]));
        if left <= |messages| {
          BreaksOff(made, messages, i, all, writes, tail, top);
          return false;
        }
        assert messages[0..] == messages;
        PerformConcat(start, made, Ingests(messages));
        PerformMark(start, made + Ingests(messages), Max(minId, newest));
        mark := Max(minId, newest);
        left := left - |messages| - 1;
        made := made + Ingests(messages) + [Mark(mark)];
        assert all == made + tail;
        newestId, remaining, offsetId := newest, remaining - |messages|, Least(messages);
        if |messages| < pageSize { break; }
      }
      assert all == made;
      UptoWhole(all, writes);
      finished := true;
    }
  }

  /** The writes after a page. */
  ghost function TailOf(fetch: Fetch, remaining: int, page: seq<Id>, size: int, min: Id, newest: Id): seq<Write>
    requires page != []
  {
    if |page| < size then [] else Walk(fetch, remaining - |page|, Least(page), min, Greatest(page, newest))
  }

  lemma WalkPage(fetch: Fetch, remaining: int, offset: Id, min: Id, newest: Id, page: seq<Id>)
    requires remaining > 0 && page == fetch(Min(remaining, PAGE), offset, min) && page != []
    ensures var tail := TailOf(fetch, remaining, page, Min(remaining, PAGE), min, newest);
      Walk(fetch, remaining, offset, min, newest) == Ingests(page) + [Mark(Max(min, Greatest(page, newest)))] + tail
  {
  }

  lemma UptoWhole(all: seq<Write>, n: nat)
    requires |all| <= n
    ensures Upto(all, n) == all
  {
  }

  lemma UptoSplit(first: seq<Write>, rest: seq<Write>, n: nat)
    requires |first| <= n
    ensures Upto(first + rest, n) == first + Upto(rest, n - |first|)
  {
  }

  lemma PerformNothing(s: Stored)
    ensures Perform(s, []) == s
  {
  }

  lemma PerformMark(s: Stored, writes: seq<Write>, id: Id)
    ensures Perform(s, writes + [Mark(id)]) == Perform(s, writes).(mark := id)
  {
    assert (writes + [Mark(id)])[..|writes|] == writes;
  }

  lemma {:induction false} IngestsLength(page: seq<Id>)
    ensures |Ingests(page)| == |page|
  {
    if page != [] { IngestsLength(page[1..]); }
  }

  /** The writes for the end of a page come first. */
  lemma {:induction false} IngestsPrefix(page: seq<Id>, i: nat)
    requires i <= |page|
    ensures |Ingests(page)| == |page| && |Ingests(page[i..])| == |page| - i
    ensures Ingests(page[i..]) == Ingests(page)[..|page| - i]
    decreases i
  {
    IngestsLength(page);
    IngestsLength(page[i..]);
    if i == 0 {
      assert page[0..] == page;
    } else {
      IngestsPrefix(page, i - 1);
      assert page[i - 1..][1..] == page[i..];
      assert Ingests(page[i - 1..]) == Ingests(page[i..]) + [Ingest(page[i - 1])];
    }
  }

  lemma BreaksOff(made: seq<Write>, page: seq<Id>, i: nat, all: seq<Write>, writes: nat, tail: seq<Write>, top: Id)
    requires i <= |page| && |Ingests(page)| == |page|
    requires all == made + (Ingests(page) + [Mark(top)]) + tail
    requires Ingests(page[i..]) == Ingests(page)[..|page| - i] && |made| + |page| - i == writes
    ensures writes < |all| && Upto(all, writes) == made + Ingests(page[i..])
  {
    assert all[..writes] == made + Ingests(page)[..|page| - i];
  }
}
