/** Which of the values delivered for a row it ends up with, field by field. */
module UpsertFields {
  import opened Options
  import opened Upserts

  // ---- The value said last ----

  predicate SilentFrom<T>(ds: seq<Delivery>, says: Delivery -> Option<T>, i: nat) {
    forall j :: i <= j < |ds| ==> says(ds[j]).None?
  }

  predicate SaidAt<T(==)>(ds: seq<Delivery>, says: Delivery -> Option<T>, i: int, now: Option<T>) {
    0 <= i < |ds| && says(ds[i]) == now && SilentFrom(ds, says, i + 1)
  }

  /** The value is the one said by the last delivery that says any, and the one there before if none does. */
  ghost predicate LastSaid<T>(ds: seq<Delivery>, says: Delivery -> Option<T>, before: Option<T>, now: Option<T>) {
    if SilentFrom(ds, says, 0) then now == before else now.Some? && exists i :: SaidAt(ds, says, i, now)
  }

  /** One delivery more: it has its say, or leaves the value as it was. */
  lemma OneMoreSays<T>(ds: seq<Delivery>, says: Delivery -> Option<T>, before: Option<T>, was: Option<T>,
                       now: Option<T>)
    requires ds != [] && LastSaid(ds[..|ds| - 1], says, before, was)
    requires var last := ds[|ds| - 1]; now == if says(last).Some? then says(last) else was
    ensures LastSaid(ds, says, before, now)
  {
    var init, last := ds[..|ds| - 1], ds[|ds| - 1];
    assert forall j :: 0 <= j < |init| ==> init[j] == ds[j];
    if says(last).Some? {
      assert SaidAt(ds, says, |ds| - 1, now);
    } else if !SilentFrom(init, says, 0) {
      var i :| SaidAt(init, says, i, was);
      assert SaidAt(ds, says, i, now);
    }
  }

  function NonEmpty(list: seq<string>): Option<seq<string>> {
    if list == [] then None else Some(list)
  }

  function ValueAt(json: Json, k: string): Option<string> {
    if k in json then Some(json[k]) else None
  }

  // ---- Conversations ----

  function Account(c: Option<Conversation>): Text { if c.Some? then c.value.accountId else None }

  function Title(c: Option<Conversation>): Text { if c.Some? then c.value.title else None }

  function Participants(c: Option<Conversation>): Option<seq<string>> {
    if c.Some? then NonEmpty(c.value.participants) else None
  }

  function Meta(c: Option<Conversation>, k: string): Option<string> {
    if c.Some? then ValueAt(c.value.metadata, k) else None
  }

  /** What the delivery says of the conversation with this key. */
  function OfConversation(key: Key, d: Delivery): Option<Conversation> {
    if d.conversationKey == key then Some(d.conversation) else None
  }

  /** One delivery: what it says replaces what was there. */
  lemma ConversationTakes(db: Db, d: Delivery, key: Key, k: string)
    ensures var was, said, row :=
        Get(db.conversations, key), OfConversation(key, d), Get(Ingested(db, d).conversations, key);
      && Account(row) == (if Account(said).Some? then Account(said) else Account(was))
      && Title(row) == (if Title(said).Some? then Title(said) else Title(was))
      && Participants(row) == (if Participants(said).Some? then Participants(said) else Participants(was))
      && Meta(row, k) == (if Meta(said, k).Some? then Meta(said, k) else Meta(was, k))
  {
    hide Greatest;
  }

  /** After any deliveries a conversation has the title and the account that were delivered last, the last
      participants that were any, and for each metadata key its last value; where none was delivered, what
      was stored before. */
  lemma {:induction false} ConversationHoldsLast(db: Db, ds: seq<Delivery>, key: Key, k: string)
    ensures var was, row := Get(db.conversations, key), Get(IngestedAll(db, ds).conversations, key);
      && LastSaid(ds, d => Account(OfConversation(key, d)), Account(was), Account(row))
      && LastSaid(ds, d => Title(OfConversation(key, d)), Title(was), Title(row))
      && LastSaid(ds, d => Participants(OfConversation(key, d)), Participants(was), Participants(row))
      && LastSaid(ds, d => Meta(OfConversation(key, d), k), Meta(was, k), Meta(row, k))
  {
    hide LastSaid, Ingested, OfConversation, Account, Title, Participants, Meta, Get;
    var was, row := Get(db.conversations, key), Get(IngestedAll(db, ds).conversations, key);
    if ds == [] {
      NothingSaid(d => Account(OfConversation(key, d)), Account(was));
      NothingSaid(d => Title(OfConversation(key, d)), Title(was));
      NothingSaid(d => Participants(OfConversation(key, d)), Participants(was));
      NothingSaid(d => Meta(OfConversation(key, d), k), Meta(was, k));
    } else {
      ConversationHoldsLast(db, ds[..|ds| - 1], key, k);
      ConversationTakes(IngestedAll(db, ds[..|ds| - 1]), ds[|ds| - 1], key, k);
      var mid := Get(IngestedAll(db, ds[..|ds| - 1]).conversations, key);
      OneMoreSays(ds, d => Account(OfConversation(key, d)), Account(was), Account(mid), Account(row));
      OneMoreSays(ds, d => Title(OfConversation(key, d)), Title(was), Title(mid), Title(row));
      OneMoreSays(ds, d => Participants(OfConversation(key, d)), Participants(was), Participants(mid),
                  Participants(row));
      OneMoreSays(ds, d => Meta(OfConversation(key, d), k), Meta(was, k), Meta(mid, k), Meta(row, k));
    }
  }

  lemma NothingSaid<T>(says: Delivery -> Option<T>, before: Option<T>)
    ensures LastSaid([], says, before, before)
  {
  }

  /** The greatest time, stored or delivered for the conversation; none if there is none. */
  ghost predicate GreatestTime(ds: seq<Delivery>, key: Key, was: Option<int>, now: Option<int>) {
    && (now.None? ==> was.None? && forall i :: 0 <= i < |ds| ==> TimeSaid(key, ds[i]).None?)
    && (now.Some? ==>
          && (was.Some? ==> was.value <= now.value)
          && (forall i :: 0 <= i < |ds| && TimeSaid(key, ds[i]).Some? ==> TimeSaid(key, ds[i]).value <= now.value)
          && (now == was || exists i :: 0 <= i < |ds| && TimeSaid(key, ds[i]) == now))
  }

  function TimeSaid(key: Key, d: Delivery): Option<int> {
    if d.conversationKey == key then d.conversation.lastEventAt else None
  }

  lemma TimeTakes(db: Db, d: Delivery, key: Key)
    ensures var was, said := LastEvent(db.conversations, key), TimeSaid(key, d);
      LastEvent(Ingested(db, d).conversations, key) == if said.None? || (was.Some? && said.value <= was.value)
                                                       then was else said
  {
    hide MergeMessage;
  }

  lemma {:induction false} LastEventNeverFalls(db: Db, ds: seq<Delivery>, key: Key)
    ensures GreatestTime(ds, key, LastEvent(db.conversations, key), LastEvent(IngestedAll(db, ds).conversations, key))
  {
    hide Ingested, LastEvent, TimeSaid;
    if ds != [] {
      var init, last := ds[..|ds| - 1], ds[|ds| - 1];
      LastEventNeverFalls(db, init, key);
      TimeTakes(IngestedAll(db, init), last, key);
      var was, mid := LastEvent(db.conversations, key), LastEvent(IngestedAll(db, init).conversations, key);
      var now := LastEvent(IngestedAll(db, ds).conversations, key);
      assert forall i :: 0 <= i < |init| ==> init[i] == ds[i];
      if mid.Some? && mid != was {
        var i :| 0 <= i < |init| && TimeSaid(key, init[i]) == mid;
        assert TimeSaid(key, ds[i]) == mid;
      }
      if now != mid { assert TimeSaid(key, ds[|ds| - 1]) == now; }
    }
  }

  // ---- Messages ----

  function Sender(m: Option<Message>): Text { if m.Some? then m.value.senderId else None }

  function Label(m: Option<Message>): Text { if m.Some? then m.value.senderLabel else None }

  function Content(m: Option<Message>): Text { if m.Some? then m.value.contentText else None }

  function ContentAt(m: Option<Message>, k: string): Option<string> {
    if m.Some? then ValueAt(m.value.contentJson, k) else None
  }

  function ProvenanceAt(m: Option<Message>, k: string): Option<string> {
    if m.Some? then ValueAt(m.value.provenance, k) else None
  }

  function Time(m: Option<Message>): Option<int> { if m.Some? then Some(m.value.occurredAt) else None }

  function Inbound(m: Option<Message>): Option<bool> { if m.Some? then Some(m.value.isInbound) else None }

  function Link(m: Option<Message>): Option<Id> { if m.Some? then m.value.conversationId else None }

  /** What the delivery says of the message with this key. */
  function OfMessage(key: Key, d: Delivery): Option<Message> {
    if d.messageKey == key then Some(d.message) else None
  }

  lemma MessageTakes(db: Db, d: Delivery, key: Key, k: string)
    ensures var was, said, row := Get(db.messages, key), OfMessage(key, d), Get(Ingested(db, d).messages, key);
      && Sender(row) == (if Sender(said).Some? then Sender(said) else Sender(was))
      && Label(row) == (if Label(said).Some? then Label(said) else Label(was))
      && Content(row) == (if Content(said).Some? then Content(said) else Content(was))
      && ContentAt(row, k) == (if ContentAt(said, k).Some? then ContentAt(said, k) else ContentAt(was, k))
      && ProvenanceAt(row, k)
         == (if ProvenanceAt(said, k).Some? then ProvenanceAt(said, k) else ProvenanceAt(was, k))
      && Time(row) == (if said.Some? then Time(said) else Time(was))
      && Inbound(row) == (if said.Some? then Inbound(said) else Inbound(was))
  {
    hide Greatest, MergeConversation;
  }

  /** After any deliveries a message has the sender, the label and the text that were delivered last, where
      one was. */
  lemma {:induction false} MessageHoldsLast(db: Db, ds: seq<Delivery>, key: Key)
    ensures var was, row := Get(db.messages, key), Get(IngestedAll(db, ds).messages, key);
      && LastSaid(ds, d => Sender(OfMessage(key, d)), Sender(was), Sender(row))
      && LastSaid(ds, d => Label(OfMessage(key, d)), Label(was), Label(row))
      && LastSaid(ds, d => Content(OfMessage(key, d)), Content(was), Content(row))
  {
    hide LastSaid, Ingested, OfMessage, Sender, Label, Content, Get;
    var was, row := Get(db.messages, key), Get(IngestedAll(db, ds).messages, key);
    if ds == [] {
      NothingSaid(d => Sender(OfMessage(key, d)), Sender(was));
      NothingSaid(d => Label(OfMessage(key, d)), Label(was));
      NothingSaid(d => Content(OfMessage(key, d)), Content(was));
    } else {
      MessageHoldsLast(db, ds[..|ds| - 1], key);
      MessageTakes(IngestedAll(db, ds[..|ds| - 1]), ds[|ds| - 1], key, "");
      var mid := Get(IngestedAll(db, ds[..|ds| - 1]).messages, key);
      OneMoreSays(ds, d => Sender(OfMessage(key, d)), Sender(was), Sender(mid), Sender(row));
      OneMoreSays(ds, d => Label(OfMessage(key, d)), Label(was), Label(mid), Label(row));
      OneMoreSays(ds, d => Content(OfMessage(key, d)), Content(was), Content(mid), Content(row));
    }
  }

  /** For each key of its two objects it has the last value delivered. */
  lemma {:induction false} MessageObjectsHoldLast(db: Db, ds: seq<Delivery>, key: Key, k: string)
    ensures var was, row := Get(db.messages, key), Get(IngestedAll(db, ds).messages, key);
      && LastSaid(ds, d => ContentAt(OfMessage(key, d), k), ContentAt(was, k), ContentAt(row, k))
      && LastSaid(ds, d => ProvenanceAt(OfMessage(key, d), k), ProvenanceAt(was, k), ProvenanceAt(row, k))
  {
    hide LastSaid, Ingested, OfMessage, ContentAt, ProvenanceAt, Get;
    var was, row := Get(db.messages, key), Get(IngestedAll(db, ds).messages, key);
    if ds == [] {
      NothingSaid(d => ContentAt(OfMessage(key, d), k), ContentAt(was, k));
      NothingSaid(d => ProvenanceAt(OfMessage(key, d), k), ProvenanceAt(was, k));
    } else {
      MessageObjectsHoldLast(db, ds[..|ds| - 1], key, k);
      MessageTakes(IngestedAll(db, ds[..|ds| - 1]), ds[|ds| - 1], key, k);
      var mid := Get(IngestedAll(db, ds[..|ds| - 1]).messages, key);
      OneMoreSays(ds, d => ContentAt(OfMessage(key, d), k), ContentAt(was, k), ContentAt(mid, k), ContentAt(row, k));
      OneMoreSays(ds, d => ProvenanceAt(OfMessage(key, d), k), ProvenanceAt(was, k), ProvenanceAt(mid, k),
                  ProvenanceAt(row, k));
    }
  }

  /** Its time and its side are those of the last delivery. */
  lemma {:induction false} MessageIsTimedLast(db: Db, ds: seq<Delivery>, key: Key, i: nat)
    requires i < |ds| && ds[i].messageKey == key && forall j :: i < j < |ds| ==> ds[j].messageKey != key
    ensures var row := Get(IngestedAll(db, ds).messages, key);
      row.Some? && row.value.occurredAt == ds[i].message.occurredAt && row.value.isInbound == ds[i].message.isInbound
    decreases |ds|
  {
    hide MergeConversation;
    if i < |ds| - 1 { MessageIsTimedLast(db, ds[..|ds| - 1], key, i); }
  }

  /** The id of the conversation the delivery puts the message in. */
  function LinkSaid(ids: map<Key, Id>, key: Key, d: Delivery): Option<Id> {
    if d.messageKey == key then Get(ids, d.conversationKey) else None
  }

  /** A message hangs on the conversation its last delivery named, by the id that conversation has. */
  lemma {:induction false} MessageHangsOnLast(db: Db, ds: seq<Delivery>, key: Key, ids: map<Key, Id>)
    requires forall c :: c in IngestedAll(db, ds).ids ==> c in ids && ids[c] == IngestedAll(db, ds).ids[c]
    ensures var was, row := Get(db.messages, key), Get(IngestedAll(db, ds).messages, key);
      LastSaid(ds, d => LinkSaid(ids, key, d), Link(was), Link(row))
  {
    hide LastSaid, MergeConversation;
    var was, row := Get(db.messages, key), Get(IngestedAll(db, ds).messages, key);
    if ds == [] {
      NothingSaid(d => LinkSaid(ids, key, d), Link(was));
    } else {
      MessageHangsOnLast(db, ds[..|ds| - 1], key, ids);
      var mid := Get(IngestedAll(db, ds[..|ds| - 1]).messages, key);
      OneMoreSays(ds, d => LinkSaid(ids, key, d), Link(was), Link(mid), Link(row));
    }
  }

  /** No delivery before `i` is to this conversation. */
  predicate First(ds: seq<Delivery>, key: Key, i: nat)
    requires i < |ds|
  {
    ds[i].conversationKey == key && forall j :: 0 <= j < i ==> ds[j].conversationKey != key
  }

  /** An id is given by the first delivery that needs one, and kept. */
  lemma {:induction false} IdGivenOnce(db: Db, ds: seq<Delivery>, key: Key)
    ensures var ids := IngestedAll(db, ds).ids;
      && (key in db.ids ==> key in ids && ids[key] == db.ids[key])
      && (key !in db.ids ==>
            forall i :: 0 <= i < |ds| && First(ds, key, i) ==> key in ids && ids[key] == ds[i].newId)
      && (key in ids <==> key in db.ids || exists i :: 0 <= i < |ds| && ds[i].conversationKey == key)
  {
    if ds != [] {
      var init := ds[..|ds| - 1];
      IdGivenOnce(db, init, key);
      assert forall j :: 0 <= j < |init| ==> init[j] == ds[j];
      var ids := IngestedAll(db, ds).ids;
      if key !in db.ids {
        forall i | 0 <= i < |ds| && First(ds, key, i) ensures key in ids && ids[key] == ds[i].newId {
          if i < |init| { assert First(init, key, i); }
        }
      }
      if key in ids && key !in db.ids {
        if i :| 0 <= i < |init| && init[i].conversationKey == key {
          assert ds[i].conversationKey == key;
        } else {
          assert ds[|ds| - 1].conversationKey == key;
        }
      }
      if i :| 0 <= i < |ds| && ds[i].conversationKey == key {
        if i < |init| { assert init[i].conversationKey == key; }
      }
    }
  }

  /** A row is there if and only if it was, or was delivered. */
  lemma {:induction false} RowsAreDelivered(db: Db, ds: seq<Delivery>, key: Key)
    ensures key in IngestedAll(db, ds).conversations
      <==> key in db.conversations || exists i :: 0 <= i < |ds| && ds[i].conversationKey == key
    ensures key in IngestedAll(db, ds).messages
      <==> key in db.messages || exists i :: 0 <= i < |ds| && ds[i].messageKey == key
  {
    hide MergeConversation, MergeMessage;
    if ds != [] {
      var init, last := ds[..|ds| - 1], ds[|ds| - 1];
      RowsAreDelivered(db, init, key);
      assert forall i :: 0 <= i < |init| ==> init[i] == ds[i];
      if last.conversationKey == key { assert ds[|ds| - 1].conversationKey == key; }
      if last.messageKey == key { assert ds[|ds| - 1].messageKey == key; }
    }
  }
}
