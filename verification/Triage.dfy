/** Deriving what each conversation needs from its messages; scores are in ten-thousandths. */
module Triage {
  import opened Options

  /** Indexes into the two tables. */
  type ConversationId = nat
  type MessageId = nat

  /** What the script reads of a message, and the two flags it writes. The five booleans after the
      text are the outcomes of the patterns it matches against text and sender. */
  datatype Message = Message(
    id: nat,
    conversation: Option<ConversationId>,
    source: string,
    occurredAt: int,
    text: string,
    saysWhen: bool,
    asks: bool,
    saysDo: bool,
    saysSoon: bool,
    fromBot: bool,
    isInbound: bool,
    removed: bool,
    isRead: bool,
    mailIsHuman: bool,
    needsRead: Option<bool>,
    needsReply: Option<bool>)

  datatype Needs = Needs(
    needsRead: bool,
    needsReply: bool,
    waitingOnOther: bool,
    blockedNeedsContext: bool,
    readyToAct: bool,
    importantNow: bool,
    followUpLater: bool,
    priority: int,
    urgency: int,
    social: int)

  datatype Conversation = Conversation(source: string, participants: nat, needs: Needs)

  const MATRIX := "matrix"
  const OUTLOOK := "outlook"
  const HOUR := 3_600_000
  const ONE := 10_000

  predicate Watched(source: string) {
    source == MATRIX || source == OUTLOOK
  }

  predicate Undecrypted(text: string) {
    text == "[undecrypted]"
  }

  predicate NoText(text: string) {
    text == "[non-text message]" || text == "[non-text event]" || text == ""
  }

  // ---- Aggregates ----

  predicate Counts(m: Message, c: ConversationId) {
    m.conversation == Some(c) && !m.removed
  }

  /** Order by time, then id. */
  predicate Later(a: Message, b: Message) {
    a.occurredAt > b.occurredAt || (a.occurredAt == b.occurredAt && a.id > b.id)
  }

  function NewestUpto(messages: seq<Message>, c: ConversationId, n: nat): (r: Option<MessageId>)
    requires n <= |messages|
    ensures r.Some? ==> r.value < n && Counts(messages[r.value], c)
  {
    if n == 0 then None else
    var r := NewestUpto(messages, c, n - 1);
    if Counts(messages[n - 1], c) && (r.None? || Later(messages[n - 1], messages[r.value])) then Some(n - 1) else r
  }

  function Newest(messages: seq<Message>, c: ConversationId): (r: Option<MessageId>)
    ensures r.Some? ==> r.value < |messages| && Counts(messages[r.value], c)
  {
    NewestUpto(messages, c, |messages|)
  }

  function LastAtUpto(messages: seq<Message>, c: ConversationId, inbound: bool, n: nat): Option<int>
    requires n <= |messages|
  {
    if n == 0 then None else
    var r, m := LastAtUpto(messages, c, inbound, n - 1), messages[n - 1];
    if Counts(m, c) && m.isInbound == inbound && (r.None? || m.occurredAt > r.value) then Some(m.occurredAt) else r
  }

  function LastAt(messages: seq<Message>, c: ConversationId, inbound: bool): Option<int> {
    LastAtUpto(messages, c, inbound, |messages|)
  }

  // ---- The rules ----

  /** A conversation's row in the query's base: its newest message, if any, and the last times. */
  datatype Facts = Facts(
    source: string,
    participants: nat,
    latest: Option<Message>,
    lastOut: Option<int>,
    lastIn: Option<int>)

  function SocialWeight(f: Facts): int {
    if f.source == MATRIX && 2 <= f.participants <= 4 then 8_500
    else if f.source == MATRIX && 5 <= f.participants <= 8 then 5_500
    else if f.source == OUTLOOK && 2 <= f.participants <= 6 then 8_000
    else if f.source == OUTLOOK && 7 <= f.participants <= 12 then 5_000
    else 2_500
  }

  function UrgencyScore(f: Facts, now: int): int {
    match f.latest
    case None => 2_000
    case Some(m) =>
      if m.saysWhen then 9_500
      else if m.asks then 7_500
      else if m.saysDo then 7_000
      else if m.occurredAt >= now - 24 * HOUR then 5_500
      else 2_000
  }

  predicate NeedsRead(f: Facts) {
    f.latest.Some? && f.latest.value.isInbound
      && (f.source == MATRIX || (f.source == OUTLOOK && !f.latest.value.isRead))
  }

  predicate Unanswered(f: Facts, m: Message) {
    f.lastOut.None? || f.lastOut.value < m.occurredAt
  }

  predicate NeedsReply(f: Facts) {
    match f.latest
    case None => false
    case Some(m) =>
      && m.isInbound && !Undecrypted(m.text) && !NoText(m.text)
      && (if f.source == MATRIX then f.participants <= 6 && !m.fromBot
          else if f.source == OUTLOOK then f.participants <= 12 && m.mailIsHuman
          else false)
      && Unanswered(f, m)
  }

  predicate WaitingOnOther(f: Facts) {
    f.lastOut.Some? && (f.lastIn.None? || f.lastOut.value > f.lastIn.value)
  }

  predicate BlockedNeedsContext(f: Facts) {
    f.source == MATRIX && f.latest.Some? && Undecrypted(f.latest.value.text)
  }

  predicate ImportantNow(f: Facts, now: int) {
    match f.latest
    case None => false
    case Some(m) =>
      && m.isInbound && !NoText(m.text) && (m.occurredAt >= now - 48 * HOUR || m.saysSoon)
      && (if f.source == MATRIX then f.participants <= 8 || Undecrypted(m.text)
          else if f.source == OUTLOOK then m.mailIsHuman && !m.isRead
          else false)
  }

  predicate FollowUpLater(f: Facts, now: int) {
    match f.latest
    case None => false
    case Some(m) =>
      && m.isInbound && !Undecrypted(m.text) && !NoText(m.text)
      && m.occurredAt < now - 18 * HOUR && m.occurredAt >= now - 14 * 24 * HOUR
      && (if f.source == MATRIX then f.participants <= 12 && Unanswered(f, m)
          else if f.source == OUTLOOK then m.mailIsHuman && !m.isRead
          else false)
  }

  function Min(a: int, b: int): int {
    if a < b then a else b
  }

  function Max(a: int, b: int): int {
    if a > b then a else b
  }

  function PriorityScore(f: Facts, now: int): int {
    Min(ONE,
        Max(if NeedsReply(f) then 9_500 else if NeedsRead(f) then 6_000 else 0,
            if ImportantNow(f, now) then 9_000 else if FollowUpLater(f, now) then 5_500 else 0)
        + SocialWeight(f) * 2 / 10 + UrgencyScore(f, now) * 35 / 100
        + if BlockedNeedsContext(f) then 1_500 else 0)
  }

  function Derive(f: Facts, now: int): Needs {
    Needs(NeedsRead(f), NeedsReply(f), WaitingOnOther(f), BlockedNeedsContext(f),
          NeedsRead(f) || NeedsReply(f) || ImportantNow(f, now) || FollowUpLater(f, now),
          ImportantNow(f, now), FollowUpLater(f, now), PriorityScore(f, now), UrgencyScore(f, now), SocialWeight(f))
  }

  function FactsOf(messages: seq<Message>, conversation: Conversation, c: ConversationId): Facts {
    var newest := Newest(messages, c);
    Facts(conversation.source, conversation.participants,
          if newest.Some? then Some(messages[newest.value]) else None,
          LastAt(messages, c, false), LastAt(messages, c, true))
  }

  // ---- The three updates, as a whole ----

  datatype Db = Db(conversations: seq<Conversation>, messages: seq<Message>)

  function DerivedConversation(db: Db, c: ConversationId, now: int): Conversation
    requires c < |db.conversations|
  {
    var row := db.conversations[c];
    if Watched(row.source) then row.(needs := Derive(FactsOf(db.messages, row, c), now)) else row
  }

  function Cleared(m: Message): Message {
    if Watched(m.source) && (m.needsRead.Some? || m.needsReply.Some?) then m.(needsRead := None, needsReply := None)
    else m
  }

  function WithFlags(m: Message, needs: Needs): Message {
    m.(needsRead := Some(needs.needsRead), needsReply := Some(needs.needsReply))
  }

  /** The message is the newest of a conversation the script looks at. */
  predicate Carries(db: Db, k: MessageId)
    requires k < |db.messages|
  {
    var c := db.messages[k].conversation;
    c.Some? && c.value < |db.conversations| && Watched(db.conversations[c.value].source)
      && Newest(db.messages, c.value) == Some(k)
  }

  function DerivedMessage(db: Db, k: MessageId, now: int): Message
    requires k < |db.messages|
  {
    if Carries(db, k) then
      var needs := DerivedConversation(db, db.messages[k].conversation.value, now).needs;
      WithFlags(Cleared(db.messages[k]), needs)
    else Cleared(db.messages[k])
  }

  function Derived(db: Db, now: int): Db {
    Db(seq(|db.conversations|, c requires 0 <= c < |db.conversations| => DerivedConversation(db, c, now)),
       seq(|db.messages|, k requires 0 <= k < |db.messages| => DerivedMessage(db, k, now)))
  }

  // ---- Flags play no part in the rules' input ----

  function Bare(m: Message): Message {
    m.(needsRead := None, needsReply := None)
  }

  predicate SameBare(a: seq<Message>, b: seq<Message>) {
    |a| == |b| && forall k :: 0 <= k < |a| ==> Bare(a[k]) == Bare(b[k])
  }

  lemma {:induction false} SameAggregates(a: seq<Message>, b: seq<Message>, c: ConversationId, n: nat)
    requires SameBare(a, b) && n <= |a|
    ensures NewestUpto(a, c, n) == NewestUpto(b, c, n)
    ensures forall inbound :: LastAtUpto(a, c, inbound, n) == LastAtUpto(b, c, inbound, n)
  {
    if n > 0 {
      SameAggregates(a, b, c, n - 1);
      assert Bare(a[n - 1]) == Bare(b[n - 1]);
      assert a[n - 1].occurredAt == b[n - 1].occurredAt && a[n - 1].id == b[n - 1].id;
      var r := NewestUpto(a, c, n - 1);
      if r.Some? {
        assert Bare(a[r.value]) == Bare(b[r.value]);
        assert a[r.value].occurredAt == b[r.value].occurredAt && a[r.value].id == b[r.value].id;
      }
    }
  }

  lemma BareRules(f: Facts, g: Facts, now: int)
    requires f.latest.Some? && g == f.(latest := g.latest) && g.latest.Some?
        && Bare(f.latest.value) == Bare(g.latest.value)
    ensures NeedsRead(f) == NeedsRead(g) && NeedsReply(f) == NeedsReply(g) && WaitingOnOther(f) == WaitingOnOther(g)
    ensures BlockedNeedsContext(f) == BlockedNeedsContext(g) && ImportantNow(f, now) == ImportantNow(g, now)
    ensures FollowUpLater(f, now) == FollowUpLater(g, now)
    ensures SocialWeight(f) == SocialWeight(g) && UrgencyScore(f, now) == UrgencyScore(g, now)
  {
    var m, n := f.latest.value, g.latest.value;
    assert n == m.(needsRead := n.needsRead, needsReply := n.needsReply);
    hide Undecrypted, NoText;
  }

  lemma BareDecides(f: Facts, g: Facts, now: int)
    requires f.latest.Some? && g == f.(latest := g.latest) && g.latest.Some?
        && Bare(f.latest.value) == Bare(g.latest.value)
    ensures Derive(f, now) == Derive(g, now)
  {
    BareRules(f, g, now);
    hide NeedsRead, NeedsReply, WaitingOnOther, BlockedNeedsContext;
    hide ImportantNow, FollowUpLater, SocialWeight, UrgencyScore;
  }

  lemma SameFacts(a: seq<Message>, b: seq<Message>, row: Conversation, c: ConversationId, now: int)
    requires SameBare(a, b)
    ensures Derive(FactsOf(a, row, c), now) == Derive(FactsOf(b, row, c), now) && Newest(a, c) == Newest(b, c)
  {
    hide Derive;
    SameAggregates(a, b, c, |a|);
    var newest := Newest(a, c);
    if newest.Some? {
      assert Bare(a[newest.value]) == Bare(b[newest.value]);
      BareDecides(FactsOf(a, row, c), FactsOf(b, row, c), now);
    }
  }

  /** The message as the projection leaves it once the conversations before `c` are done. */
  ghost function ProjectedUpto(db: Db, conversations: seq<Conversation>, k: MessageId, c: nat): Message
    requires k < |db.messages| && |conversations| == |db.conversations|
  {
    var m := db.messages[k];
    if Carries(db, k) && m.conversation.value < c then WithFlags(Cleared(m), conversations[m.conversation.value].needs)
    else Cleared(m)
  }

  lemma ProjectedStep(db: Db, conversations: seq<Conversation>, k: MessageId, c: ConversationId)
    requires k < |db.messages| && |conversations| == |db.conversations| && c < |conversations|
    ensures ProjectedUpto(db, conversations, k, c + 1)
      == if Watched(db.conversations[c].source) && Newest(db.messages, c) == Some(k)
         then WithFlags(ProjectedUpto(db, conversations, k, c), conversations[c].needs)
         else ProjectedUpto(db, conversations, k, c)
  {
    hide NewestUpto;
  }

  lemma NothingProjected(db: Db, conversations: seq<Conversation>)
    requires |conversations| == |db.conversations|
    ensures forall k :: 0 <= k < |db.messages| ==> ProjectedUpto(db, conversations, k, 0) == Cleared(db.messages[k])
  {
  }

  lemma ProjectedBare(db: Db, conversations: seq<Conversation>, messages: seq<Message>, c: ConversationId)
    requires |conversations| == |db.conversations| && |messages| == |db.messages|
    requires forall k :: 0 <= k < |messages| ==> messages[k] == ProjectedUpto(db, conversations, k, c)
    ensures SameBare(messages, db.messages)
  {
    hide Newest, ProjectedUpto;
    forall k | 0 <= k < |messages| ensures Bare(messages[k]) == Bare(db.messages[k]) {
      ProjectedBareAt(db, conversations, k, c);
    }
  }

  lemma BareCleared(m: Message)
    ensures Bare(Cleared(m)) == Bare(m)
  {
  }

  lemma BareWithFlags(m: Message, needs: Needs)
    ensures Bare(WithFlags(m, needs)) == Bare(m)
  {
  }

  lemma ProjectedBareAt(db: Db, conversations: seq<Conversation>, k: MessageId, c: ConversationId)
    requires |conversations| == |db.conversations| && k < |db.messages|
    ensures Bare(ProjectedUpto(db, conversations, k, c)) == Bare(db.messages[k])
  {
    BareCleared(db.messages[k]);
    if Carries(db, k) {
      BareWithFlags(Cleared(db.messages[k]), conversations[db.messages[k].conversation.value].needs);
    }
    hide Bare, Cleared, WithFlags, Newest;
  }

  // ---- The script ----

  class Script {
    var conversations: seq<Conversation>
    var messages: seq<Message>

    constructor (db: Db)
      ensures Now() == db
    {
      conversations, messages := db.conversations, db.messages;
    }

    function Now(): Db
      reads this
    {
      Db(conversations, messages)
    }

    method FindNewest(c: ConversationId) returns (newest: Option<MessageId>)
      ensures newest == Newest(messages, c)
    {
      newest := None;
      for k := 0 to |messages|
        invariant newest == NewestUpto(messages, c, k)
      {
        if Counts(messages[k], c) && (newest.None? || Later(messages[k], messages[newest.value])) { newest := Some(k); }
      }
    }

    method FindLast(c: ConversationId, inbound: bool) returns (at: Option<int>)
      ensures at == LastAt(messages, c, inbound)
    {
      at := None;
      for k := 0 to |messages|
        invariant at == LastAtUpto(messages, c, inbound, k)
      {
        var m := messages[k];
        if Counts(m, c) && m.isInbound == inbound && (at.None? || m.occurredAt > at.value) { at := Some(m.occurredAt); }
      }
    }

    method UpdateConversations(now: int)
      modifies this`conversations
      ensures conversations == Derived(old(Now()), now).conversations
    {
      hide Derive, Newest, LastAt;
      ghost var db := Now();
      for c := 0 to |conversations|
        invariant |conversations| == |db.conversations| && messages == db.messages
        invariant forall d :: 0 <= d < |conversations| ==>
          conversations[d] == if d < c then DerivedConversation(db, d, now) else db.conversations[d]
      {
        var row := conversations[c];
        if Watched(row.source) {
          var newest := FindNewest(c);
          var lastOut := FindLast(c, false);
          var lastIn := FindLast(c, true);
          var latest := if newest.Some? then Some(messages[newest.value]) else None;
          var facts := Facts(row.source, row.participants, latest, lastOut, lastIn);
          conversations := conversations[c := row.(needs := Derive(facts, now))];
        }
      }
    }

    method ClearMessages()
      modifies this`messages
      ensures |messages| == |old(messages)| && forall k ::
          0 <= k < |messages| ==> messages[k] == Cleared(old(messages)[k])
    {
      for k := 0 to |messages|
        invariant |messages| == |old(messages)|
        invariant forall j ::
            0 <= j < |messages| ==> messages[j] == if j < k then Cleared(old(messages)[j]) else old(messages)[j]
      {
        var m := messages[k];
        if Watched(m.source) && (m.needsRead.Some? || m.needsReply.Some?) {
          messages := messages[k := m.(needsRead := None, needsReply := None)];
        }
      }
    }

    method ProjectFlags(ghost db: Db)
      requires |conversations| == |db.conversations| && |messages| == |db.messages|
      requires forall c :: 0 <= c < |conversations| ==> conversations[c].source == db.conversations[c].source
      requires forall k :: 0 <= k < |messages| ==> messages[k] == Cleared(db.messages[k])
      modifies this`messages
      ensures |messages| == |db.messages|
      ensures forall k :: 0 <= k < |messages| ==> messages[k] == ProjectedUpto(db, conversations, k, |conversations|)
    {
      hide Newest, ProjectedUpto, Derive;
      assert forall k :: 0 <= k < |messages| ==> messages[k] == ProjectedUpto(db, conversations, k, 0) by {
        NothingProjected(db, conversations);
      }
      for c := 0 to |conversations|
        invariant |messages| == |db.messages|
        invariant forall k :: 0 <= k < |messages| ==> messages[k] == ProjectedUpto(db, conversations, k, c)
      {
        forall k | 0 <= k < |messages| { ProjectedStep(db, conversations, k, c); }
        if Watched(conversations[c].source) {
          var newest := FindNewest(c);
          ProjectedBare(db, conversations, messages, c);
          SameFacts(messages, db.messages, db.conversations[c], c, 0);
          if newest.Some? {
            messages := messages[newest.value := WithFlags(messages[newest.value], conversations[c].needs)];
          }
        }
      }
    }

    method Run(now: int)
      modifies this
      ensures Now() == Derived(old(Now()), now)
    {
      hide Derive, Newest;
      ghost var db := Now();
      UpdateConversations(now);
      ClearMessages();
      ProjectFlags(db);
      assert conversations == Derived(db, now).conversations;
      assert messages == Derived(db, now).messages;
    }
  }
}
