/** Conversations and messages are stored by upserts that absorb re-delivery. */
module Upserts {
  import opened Options

  type Text = Option<string>
  type Json = map<string, string>
  type Id = nat

  /** A row's natural key. */
  datatype Key = Key(source: string, externalId: string)

  datatype Conversation = Conversation(
    accountId: Text,
    title: Text,
    participants: seq<string>,
    lastEventAt: Option<int>,
    metadata: Json)

  datatype Message = Message(
    conversationId: Option<Id>,
    senderId: Text,
    senderLabel: Text,
    occurredAt: int,
    contentText: Text,
    contentJson: Json,
    isInbound: bool,
    provenance: Json)

  // ---- The SQL operators ----

  function Coalesce<T>(a: Option<T>, b: Option<T>): Option<T> {
    if a.Some? then a else b
  }

  /** SQL's greatest passes over nulls. */
  function Greatest(a: Option<int>, b: Option<int>): Option<int> {
    if a.None? then b else if b.None? then a else if a.value < b.value then b else a
  }

  /** The update arms: `row` is stored, `excluded` is delivered. */
  function MergeConversation(row: Conversation, excluded: Conversation): Conversation {
    Conversation(
      Coalesce(excluded.accountId, row.accountId),
      Coalesce(excluded.title, row.title),
      if excluded.participants == [] then row.participants else excluded.participants,
      Greatest(Coalesce(row.lastEventAt, excluded.lastEventAt), Coalesce(excluded.lastEventAt, row.lastEventAt)),
      row.metadata + excluded.metadata)
  }

  function MergeMessage(row: Message, excluded: Message): Message {
    Message(
      Coalesce(excluded.conversationId, row.conversationId),
      Coalesce(excluded.senderId, row.senderId),
      Coalesce(excluded.senderLabel, row.senderLabel),
      excluded.occurredAt,
      Coalesce(excluded.contentText, row.contentText),
      row.contentJson + excluded.contentJson,
      excluded.isInbound,
      row.provenance + excluded.provenance)
  }

  lemma MapsMerge(a: Json, b: Json, c: Json)
    ensures (a + b) + c == a + (b + c) && a + a == a
  {
  }

  lemma ConversationsMergeWell(a: Conversation, b: Conversation, c: Conversation)
    ensures MergeConversation(MergeConversation(a, b), c) == MergeConversation(a, MergeConversation(b, c))
    ensures MergeConversation(a, a) == a
  {
    MapsMerge(a.metadata, b.metadata, c.metadata);
  }

  lemma MessagesMergeWell(a: Message, b: Message, c: Message)
    ensures MergeMessage(MergeMessage(a, b), c) == MergeMessage(a, MergeMessage(b, c))
    ensures MergeMessage(a, a) == a
  {
    MapsMerge(a.contentJson, b.contentJson, c.contentJson);
    MapsMerge(a.provenance, b.provenance, c.provenance);
  }

  // ---- Tables ----

  type Merge<!R> = (R, R) -> R

  ghost predicate Band<R(!new)>(merge: Merge<R>) {
    && (forall a, b, c :: merge(merge(a, b), c) == merge(a, merge(b, c)))
    && (forall a :: merge(a, a) == a)
  }

  function Upsert<R>(merge: Merge<R>, table: map<Key, R>, key: Key, row: R): map<Key, R> {
    table[key := if key in table then merge(table[key], row) else row]
  }

  datatype Delivered<R> = Delivered(key: Key, row: R)

  function UpsertAll<R>(merge: Merge<R>, table: map<Key, R>, ds: seq<Delivered<R>>): map<Key, R> {
    if ds == [] then table
    else Upsert(merge, UpsertAll(merge, table, ds[..|ds| - 1]), ds[|ds| - 1].key, ds[|ds| - 1].row)
  }

  function Lifted<R>(merge: Merge<R>, a: Option<R>, b: Option<R>): Option<R> {
    if a.None? then b else if b.None? then a else Some(merge(a.value, b.value))
  }

  function Get<R>(table: map<Key, R>, key: Key): Option<R> {
    if key in table then Some(table[key]) else None
  }

  /** All that was delivered for a key, merged. */
  function Sum<R>(merge: Merge<R>, ds: seq<Delivered<R>>, key: Key): Option<R> {
    if ds == [] then None
    else
      var last := ds[|ds| - 1];
      Lifted(merge, Sum(merge, ds[..|ds| - 1], key), if last.key == key then Some(last.row) else None)
  }

  /** A row holds what it held merged with the sum of its deliveries. */
  lemma {:induction false} RowIsSum<R(!new)>(merge: Merge<R>, table: map<Key, R>, ds: seq<Delivered<R>>, key: Key)
    requires Band(merge)
    ensures Get(UpsertAll(merge, table, ds), key) == Lifted(merge, Get(table, key), Sum(merge, ds, key))
  {
    if ds != [] { RowIsSum(merge, table, ds[..|ds| - 1], key); }
  }

  /** Delivering a sequence a second time changes nothing, whatever was delivered before it. */
  lemma ReplayAbsorbed<R(!new)>(merge: Merge<R>, table: map<Key, R>, ds: seq<Delivered<R>>)
    requires Band(merge)
    ensures UpsertAll(merge, UpsertAll(merge, table, ds), ds) == UpsertAll(merge, table, ds)
  {
    var once := UpsertAll(merge, table, ds);
    var twice := UpsertAll(merge, once, ds);
    forall key ensures Get(twice, key) == Get(once, key) {
      RowIsSum(merge, table, ds, key);
      RowIsSum(merge, once, ds, key);
    }
    assert forall key :: key in twice <==> Get(twice, key).Some?;
    assert forall key :: key in once <==> Get(once, key).Some?;
    assert forall key :: key in twice ==> Some(twice[key]) == Get(twice, key) == Get(once, key) == Some(once[key]);
  }

  // ---- The database ----

  /** A message delivered together with what it says of its conversation. */
  datatype Delivery = Delivery(
    conversationKey: Key,
    conversation: Conversation,
    messageKey: Key,
    message: Message,
    newId: Id)

  datatype Db = Db(ids: map<Key, Id>, conversations: map<Key, Conversation>, messages: map<Key, Message>)

  function WithId(ids: map<Key, Id>, d: Delivery): map<Key, Id> {
    if d.conversationKey in ids then ids else ids[d.conversationKey := d.newId]
  }

  function Ingested(db: Db, d: Delivery): Db {
    var ids := WithId(db.ids, d);
    Db(ids, Upsert(MergeConversation, db.conversations, d.conversationKey, d.conversation),
       Upsert(MergeMessage, db.messages, d.messageKey, d.message.(conversationId := Some(ids[d.conversationKey]))))
  }

  function IngestedAll(db: Db, ds: seq<Delivery>): Db {
    if ds == [] then db else Ingested(IngestedAll(db, ds[..|ds| - 1]), ds[|ds| - 1])
  }

  class GatewayDb {
    var ids: map<Key, Id>
    var conversations: map<Key, Conversation>
    var messages: map<Key, Message>

    constructor ()
      ensures Now() == Db(map[], map[], map[])
    {
      ids, conversations, messages := map[], map[], map[];
    }

    function Now(): Db
      reads this
    {
      Db(ids, conversations, messages)
    }

    /** `newId` is the id the database gives the row if it inserts one. */
    method UpsertConversation(key: Key, row: Conversation, newId: Id) returns (id: Id)
      modifies this
      ensures conversations == Upsert(MergeConversation, old(conversations), key, row) && messages == old(messages)
      ensures ids == (if key in old(ids) then old(ids) else old(ids)[key := newId]) && id == ids[key]
    {
      if key in conversations {
        var was := conversations[key];
        conversations := conversations[key := Conversation(
          Coalesce(row.accountId, was.accountId), Coalesce(row.title, was.title),
          if row.participants == [] then was.participants else row.participants,
          Greatest(Coalesce(was.lastEventAt, row.lastEventAt), Coalesce(row.lastEventAt, was.lastEventAt)),
          was.metadata + row.metadata)];
      } else {
        conversations := conversations[key := row];
      }
      if key !in ids { ids := ids[key := newId]; }
      id := ids[key];
    }

    method UpsertMessage(key: Key, row: Message)
      modifies this
      ensures messages == Upsert(MergeMessage, old(messages), key, row)
      ensures ids == old(ids) && conversations == old(conversations)
    {
      if key in messages {
        var was := messages[key];
        messages := messages[key := Message(
          Coalesce(row.conversationId, was.conversationId), Coalesce(row.senderId, was.senderId),
          Coalesce(row.senderLabel, was.senderLabel), row.occurredAt, Coalesce(row.contentText, was.contentText),
          was.contentJson + row.contentJson, row.isInbound, was.provenance + row.provenance)];
      } else {
        messages := messages[key := row];
      }
    }

    method Ingest(d: Delivery)
      modifies this
      ensures Now() == Ingested(old(Now()), d)
    {
      var id := UpsertConversation(d.conversationKey, d.conversation, d.newId);
      UpsertMessage(d.messageKey, d.message.(conversationId := Some(id)));
    }
  }

  // ---- Re-delivery into the database ----

  function ConversationPart(ds: seq<Delivery>): seq<Delivered<Conversation>> {
    seq(|ds|, i requires 0 <= i < |ds| => Delivered(ds[i].conversationKey, ds[i].conversation))
  }

  function MessagePart(ids: map<Key, Id>, ds: seq<Delivery>): seq<Delivered<Message>> {
    seq(|ds|, i requires 0 <= i < |ds| =>
      Delivered(ds[i].messageKey, ds[i].message.(conversationId := Get(ids, ds[i].conversationKey))))
  }

  /** Ids are given once: those known stay, and every conversation delivered to has one. */
  lemma {:induction false} IdsStay(db: Db, ds: seq<Delivery>)
    ensures var after := IngestedAll(db, ds).ids;
      && (forall k :: k in db.ids ==> k in after && after[k] == db.ids[k])
      && (forall i :: 0 <= i < |ds| ==> ds[i].conversationKey in after)
  {
    if ds != [] { IdsStay(db, ds[..|ds| - 1]); }
  }

  lemma {:induction false} NoNewIds(db: Db, ds: seq<Delivery>)
    requires forall i :: 0 <= i < |ds| ==> ds[i].conversationKey in db.ids
    ensures IngestedAll(db, ds).ids == db.ids
  {
    if ds != [] { NoNewIds(db, ds[..|ds| - 1]); }
  }

  /** The two tables are upserted each on its own, messages with the ids settled in the end. */
  lemma {:induction false} IngestedInParts(db: Db, ds: seq<Delivery>, ids: map<Key, Id>)
    requires forall k :: k in IngestedAll(db, ds).ids ==> k in ids && ids[k] == IngestedAll(db, ds).ids[k]
    ensures IngestedAll(db, ds).conversations == UpsertAll(MergeConversation, db.conversations, ConversationPart(ds))
    ensures IngestedAll(db, ds).messages == UpsertAll(MergeMessage, db.messages, MessagePart(ids, ds))
  {
    if ds != [] {
      var init := ds[..|ds| - 1];
      IngestedInParts(db, init, ids);
      assert ConversationPart(ds)[..|ds| - 1] == ConversationPart(init);
      assert MessagePart(ids, ds)[..|ds| - 1] == MessagePart(ids, init);
    }
  }

  /** Ingesting a sequence of deliveries twice leaves the database as ingesting it once does. */
  lemma IngestTwiceIsOnce(db: Db, ds: seq<Delivery>)
    ensures IngestedAll(IngestedAll(db, ds), ds) == IngestedAll(db, ds)
  {
    var once := IngestedAll(db, ds);
    IdsStay(db, ds);
    NoNewIds(once, ds);
    IngestedInParts(db, ds, once.ids);
    IngestedInParts(once, ds, once.ids);
    BandsHold();
    ReplayAbsorbed(MergeConversation, db.conversations, ConversationPart(ds));
    ReplayAbsorbed(MergeMessage, db.messages, MessagePart(once.ids, ds));
  }

  lemma BandsHold()
    ensures Band<Conversation>(MergeConversation) && Band<Message>(MergeMessage)
  {
    forall a, b, c
      ensures MergeConversation(MergeConversation(a, b), c) == MergeConversation(a, MergeConversation(b, c))
    {
      ConversationsMergeWell(a, b, c);
    }
    forall a, b, c
      ensures MergeMessage(MergeMessage(a, b), c) == MergeMessage(a, MergeMessage(b, c))
    {
      MessagesMergeWell(a, b, c);
    }
    forall a ensures MergeConversation(a, a) == a { ConversationsMergeWell(a, a, a); }
    forall a ensures MergeMessage(a, a) == a { MessagesMergeWell(a, a, a); }
  }

  // ---- When a conversation last had an event ----

  predicate Dates(d: Delivered<Conversation>, key: Key, at: int) {
    d.key == key && d.row.lastEventAt == Some(at)
  }

  predicate SomeDates(ds: seq<Delivered<Conversation>>, key: Key, at: int) {
    exists i :: 0 <= i < |ds| && Dates(ds[i], key, at)
  }

  /** The greatest time delivered for the key; none if no delivery carried one. */
  ghost predicate IsLatest(ds: seq<Delivered<Conversation>>, key: Key, latest: Option<int>) {
    && (latest.None? ==> forall d, at :: d in ds ==> !Dates(d, key, at))
    && (latest.Some? ==> (forall d, at :: d in ds && Dates(d, key, at) ==> at <= latest.value)
                         && SomeDates(ds, key, latest.value))
  }

  function LastEvent(table: map<Key, Conversation>, key: Key): Option<int> {
    if key in table then table[key].lastEventAt else None
  }

  lemma {:induction false} LastEventIsLatest(ds: seq<Delivered<Conversation>>, key: Key)
    ensures IsLatest(ds, key, LastEvent(UpsertAll(MergeConversation, map[], ds), key))
  {
    if ds != [] {
      var init, last := ds[..|ds| - 1], ds[|ds| - 1];
      LastEventIsLatest(init, key);
      assert forall d :: d in ds <==> d in init || d == last;
      var before := LastEvent(UpsertAll(MergeConversation, map[], init), key);
      if before.Some? {
        var i :| 0 <= i < |init| && Dates(init[i], key, before.value);
        assert Dates(ds[i], key, before.value);
      }
      if last.key == key && last.row.lastEventAt.Some? { assert Dates(ds[|ds| - 1], key, last.row.lastEventAt.value); }
    }
  }

  lemma SomeDatesMoved(ds: seq<Delivered<Conversation>>, other: seq<Delivered<Conversation>>, key: Key, at: int)
    requires SomeDates(ds, key, at) && forall d :: d in ds ==> d in other
    ensures exists d :: d in other && Dates(d, key, at)
  {
    var i :| 0 <= i < |ds| && Dates(ds[i], key, at);
    assert ds[i] in other;
  }

  /** The order of deliveries does not matter to it. */
  lemma LastEventAnyOrder(ds: seq<Delivered<Conversation>>, other: seq<Delivered<Conversation>>, key: Key)
    requires multiset(ds) == multiset(other)
    ensures LastEvent(UpsertAll(MergeConversation, map[], ds), key)
            == LastEvent(UpsertAll(MergeConversation, map[], other), key)
  {
    hide UpsertAll, LastEvent;
    LastEventIsLatest(ds, key);
    LastEventIsLatest(other, key);
    forall d ensures d in ds <==> d in other {
      assert d in ds <==> d in multiset(ds);
      assert d in other <==> d in multiset(other);
    }
    var a := LastEvent(UpsertAll(MergeConversation, map[], ds), key);
    var b := LastEvent(UpsertAll(MergeConversation, map[], other), key);
    if a.Some? { SomeDatesMoved(ds, other, key, a.value); }
    if b.Some? { SomeDatesMoved(other, ds, key, b.value); }
  }
}
