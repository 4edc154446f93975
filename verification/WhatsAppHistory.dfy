/** WhatsApp history batches and the cursor kept for each chat. */
module WhatsAppHistory {
  type Jid = string

  /** `timestamp` is 0 when the message carries none; an empty `jid` means it carries none. */
  datatype Message = Message(jid: Jid, id: string, timestamp: int)

  type Cursors = map<Jid, int>

  /** One batch; the handler breaks off after `writes` database writes. */
  datatype Batch = Batch(chats: nat, messages: seq<Message>, writes: nat)

  function Cursor(dialogs: Cursors, jid: Jid): int {
    if jid in dialogs then dialogs[jid] else 0
  }

  predicate IsNew(dialogs: Cursors, m: Message) {
    m.jid != "" && m.timestamp > Cursor(dialogs, m.jid)
  }

  function ToIngest(dialogs: Cursors, messages: seq<Message>): (r: seq<Message>)
    ensures forall m :: m in r <==> m in messages && IsNew(dialogs, m)
  {
    if messages == [] then []
    else ToIngest(dialogs, messages[..|messages| - 1])
         + if IsNew(dialogs, messages[|messages| - 1]) then [messages[|messages| - 1]] else []
  }

  function Max(a: int, b: int): int {
    if a > b then a else b
  }

  function Raised(dialogs: Cursors, m: Message): Cursors {
    if m.jid == "" then dialogs else dialogs[m.jid := Max(Cursor(dialogs, m.jid), m.timestamp)]
  }

  function Advanced(dialogs: Cursors, messages: seq<Message>): Cursors {
    if messages == [] then dialogs
    else Raised(Advanced(dialogs, messages[..|messages| - 1]), messages[|messages| - 1])
  }

  datatype Stored = Stored(dialogs: Cursors, ingested: seq<Message>)

  predicate Succeeds(s: Stored, b: Batch) {
    b.chats + |ToIngest(s.dialogs, b.messages)| < b.writes
  }

  /** The messages a batch gets into the table. */
  function Taken(s: Stored, b: Batch): seq<Message> {
    var all := ToIngest(s.dialogs, b.messages);
    if b.writes <= b.chats then [] else if b.writes - b.chats < |all| then all[..b.writes - b.chats] else all
  }

  function Handled(s: Stored, b: Batch): Stored {
    Stored(if Succeeds(s, b) then Advanced(s.dialogs, b.messages) else s.dialogs, s.ingested + Taken(s, b))
  }

  /** A batch that gets fewer writes than it needs, one for each chat, each new message and the cursors, leaves
      every cursor as it was, and stores its chats before any message; one that gets them stores every new
      message and moves the cursors. */
  lemma WritesDecide(s: Stored, b: Batch)
    ensures var news, after := |ToIngest(s.dialogs, b.messages)|, Handled(s, b);
      && (b.writes < b.chats + news + 1 ==> after.dialogs == s.dialogs)
      && (b.writes <= b.chats ==> after.ingested == s.ingested)
      && (b.writes >= b.chats + news ==> after.ingested == s.ingested + ToIngest(s.dialogs, b.messages))
      && (b.writes >= b.chats + news + 1 ==> after.dialogs == Advanced(s.dialogs, b.messages))
      && s.ingested <= after.ingested <= s.ingested + ToIngest(s.dialogs, b.messages)
  {
    hide ToIngest, Advanced;
  }

  class Connector {
    /** The checkpoint's cursors. */
    var dialogs: Cursors
    var ingested: seq<Message>

    constructor ()
      ensures Now() == Stored(map[], [])
    {
      dialogs, ingested := map[], [];
    }

    function Now(): Stored
      reads this
    {
      Stored(dialogs, ingested)
    }

    method SelectNew(messages: seq<Message>) returns (toIngest: seq<Message>)
      ensures toIngest == ToIngest(dialogs, messages)
    {
      toIngest := [];
      for k := 0 to |messages|
        invariant toIngest == ToIngest(dialogs, messages[..k])
      {
        assert messages[..k + 1][..k] == messages[..k];
        if IsNew(dialogs, messages[k]) { toIngest := toIngest + [messages[k]]; }
      }
      assert messages[..|messages|] == messages;
    }

    method Raise(messages: seq<Message>) returns (next: Cursors)
      ensures next == Advanced(dialogs, messages)
    {
      next := dialogs;
      for k := 0 to |messages|
        invariant next == Advanced(dialogs, messages[..k])
      {
        assert messages[..k + 1][..k] == messages[..k];
        var m := messages[k];
        if m.jid != "" { next := next[m.jid := Max(Cursor(next, m.jid), m.timestamp)]; }
      }
      assert messages[..|messages|] == messages;
    }

    method HandleHistory(b: Batch) returns (succeeded: bool)
      modifies this
      ensures Now() == Handled(old(Now()), b) && succeeded == Succeeds(old(Now()), b)
    {
      hide ToIngest, Advanced;
      var left := b.writes;
      var toIngest := SelectNew(b.messages);
      if left < b.chats { return false; }
      left := left - b.chats;
      for k := 0 to |toIngest|
        invariant ingested == old(ingested) + toIngest[..k] && dialogs == old(dialogs)
        invariant left == b.writes - b.chats - k >= 0
      {
        if left == 0 { return false; }
        left := left - 1;
        ingested := ingested + [toIngest[k]];
      }
      var next := Raise(b.messages);
      if left == 0 { return false; }
      dialogs := next;
      succeeded := true;
    }
  }

  // ---- Over any sequence of batches ----

  function After(batches: seq<Batch>): Stored {
    if batches == [] then Stored(map[], [])
    else Handled(After(batches[..|batches| - 1]), batches[|batches| - 1])
  }

  /** Message `m` came in a batch that was handled to the end. */
  ghost predicate Accepted(batches: seq<Batch>, m: Message) {
    exists i :: AcceptedIn(batches, i, m)
  }

  predicate AcceptedIn(batches: seq<Batch>, i: int, m: Message) {
    0 <= i < |batches| && Succeeds(After(batches[..i]), batches[i]) && m in batches[i].messages
  }

  /** `c` is the greatest timestamp accepted for the chat, or 0 if none is positive. */
  ghost predicate IsHighest(batches: seq<Batch>, jid: Jid, c: int) {
    && c >= 0
    && (forall m :: Accepted(batches, m) && m.jid == jid ==> m.timestamp <= c)
    && (c > 0 ==> exists m :: Accepted(batches, m) && m.jid == jid && m.timestamp == c)
  }

  /** Advancing raises a cursor just to the greatest timestamp of the batch. */
  lemma {:induction false} AdvancedCursor(dialogs: Cursors, messages: seq<Message>, jid: Jid)
    requires jid != ""
    ensures var c := Cursor(Advanced(dialogs, messages), jid);
      && c >= Cursor(dialogs, jid)
      && (forall m :: m in messages && m.jid == jid ==> m.timestamp <= c)
      && (c == Cursor(dialogs, jid) || exists m :: m in messages && m.jid == jid && m.timestamp == c)
  {
    if messages != [] {
      var init, last := messages[..|messages| - 1], messages[|messages| - 1];
      AdvancedCursor(dialogs, init, jid);
      assert forall m :: m in messages ==> m in init || m == last;
      assert last in messages && forall m :: m in init ==> m in messages;
    }
  }

  lemma AcceptedBefore(batches: seq<Batch>, m: Message)
    requires batches != [] && Accepted(batches[..|batches| - 1], m)
    ensures Accepted(batches, m)
  {
    hide Succeeds, After;
    var init := batches[..|batches| - 1];
    var i :| AcceptedIn(init, i, m);
    assert init[..i] == batches[..i];
    assert AcceptedIn(batches, i, m);
  }

  lemma AcceptedGrows(batches: seq<Batch>, m: Message)
    requires batches != []
    ensures var init, last := batches[..|batches| - 1], batches[|batches| - 1];
      Accepted(batches, m) <==> Accepted(init, m) || (Succeeds(After(init), last) && m in last.messages)
  {
    hide Succeeds, After;
    var init, last := batches[..|batches| - 1], batches[|batches| - 1];
    if i :| AcceptedIn(batches, i, m) {
      if i < |init| {
        assert init[..i] == batches[..i];
        assert AcceptedIn(init, i, m);
      }
    }
    if Accepted(init, m) { AcceptedBefore(batches, m); }
    if Succeeds(After(init), last) && m in last.messages { assert AcceptedIn(batches, |init|, m); }
  }

  /** The cursor of a chat is the greatest timestamp over all batches handled to the end. */
  lemma {:induction false} CursorIsHighest(batches: seq<Batch>, jid: Jid)
    requires jid != ""
    ensures IsHighest(batches, jid, Cursor(After(batches).dialogs, jid))
  {
    hide Accepted, Advanced, Taken, ToIngest, Succeeds;
    if batches == [] {
      forall m ensures !Accepted(batches, m) { NoneAccepted(m); }
    } else {
      var init, last := batches[..|batches| - 1], batches[|batches| - 1];
      CursorIsHighest(init, jid);
      forall m
        ensures Accepted(batches, m) <==> Accepted(init, m) || (Succeeds(After(init), last) && m in last.messages)
      {
        AcceptedGrows(batches, m);
      }
      AdvancedCursor(After(init).dialogs, last.messages, jid);
    }
  }

  lemma NoneAccepted(m: Message)
    ensures !Accepted([], m)
  {
  }

  /** A batch takes up a message just when its timestamp is positive and beyond every one accepted
      for its chat before; and no cursor ever falls. */
  lemma TakesOnlyNewer(batches: seq<Batch>, b: Batch, m: Message)
    requires m.jid != "" && m in b.messages
    ensures var s := After(batches);
      && (m in ToIngest(s.dialogs, b.messages)
          <==> m.timestamp > 0 && forall seen ::
            Accepted(batches, seen) && seen.jid == m.jid ==> seen.timestamp < m.timestamp)
      && Cursor(s.dialogs, m.jid) <= Cursor(After(batches + [b]).dialogs, m.jid)
  {
    hide Accepted, Taken, Advanced, Succeeds;
    CursorIsHighest(batches, m.jid);
    assert (batches + [b])[..|batches|] == batches;
    AdvancedCursor(After(batches).dialogs, b.messages, m.jid);
  }

  /** A batch once handled to the end ingests nothing when it comes again, whatever came between. */
  lemma ReplayIngestsNothing(before: seq<Batch>, b: Batch, between: seq<Batch>, chats: nat, writes: nat)
    requires Succeeds(After(before), b)
    ensures var s := After(before + [b] + between);
      Handled(s, Batch(chats, b.messages, writes)).ingested == s.ingested
  {
    hide Taken, Advanced, Succeeds, IsHighest, After;
    var batches := before + [b] + between;
    var s := After(batches);
    var again := ToIngest(s.dialogs, b.messages);
    if again != [] {
      var m := again[0];
      assert m in again;
      CursorIsHighest(batches, m.jid);
      assert batches[..|before|] == before;
      assert AcceptedIn(batches, |before|, m);
      HighestBounds(batches, m, Cursor(s.dialogs, m.jid));
    }
    NoneTaken(s, Batch(chats, b.messages, writes));
  }

  lemma HighestBounds(batches: seq<Batch>, m: Message, c: int)
    requires IsHighest(batches, m.jid, c) && Accepted(batches, m)
    ensures m.timestamp <= c
  {
  }

  lemma NoneTaken(s: Stored, b: Batch)
    requires ToIngest(s.dialogs, b.messages) == []
    ensures Handled(s, b).ingested == s.ingested
  {
  }

  /** No cursor is kept for messages without a chat. */
  lemma {:induction false} NoCursorWithoutChat(batches: seq<Batch>)
    ensures "" !in After(batches).dialogs
  {
    hide Taken, Succeeds, Advanced;
    if batches != [] {
      NoCursorWithoutChat(batches[..|batches| - 1]);
      AdvancedNames(After(batches[..|batches| - 1]).dialogs, batches[|batches| - 1].messages);
    }
  }

  lemma {:induction false} AdvancedNames(dialogs: Cursors, messages: seq<Message>)
    requires "" !in dialogs
    ensures "" !in Advanced(dialogs, messages)
  {
    if messages != [] { AdvancedNames(dialogs, messages[..|messages| - 1]); }
  }
}
