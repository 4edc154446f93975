/** What the triage script guarantees, for every table of messages. */
module TriageProperties {
  import opened Options
  import opened Triage

  // ---- The aggregates are what they should be ----

  lemma {:induction false} NewestUptoIsNewest(messages: seq<Message>, c: ConversationId, n: nat)
    requires n <= |messages|
    ensures var r := NewestUpto(messages, c, n);
      forall k :: 0 <= k < n && Counts(messages[k], c) ==> r.Some? && !Later(messages[k], messages[r.value])
  {
    if n > 0 { NewestUptoIsNewest(messages, c, n - 1); }
  }

  predicate DistinctIds(messages: seq<Message>) {
    forall i, j :: 0 <= i < j < |messages| ==> messages[i].id != messages[j].id
  }

  /** The row picked is a message that counts, later than every other that does. */
  lemma NewestIsNewest(messages: seq<Message>, c: ConversationId, k: MessageId)
    requires k < |messages| && DistinctIds(messages)
    ensures Newest(messages, c) == Some(k) <==>
      Counts(messages[k], c) && forall j ::
        0 <= j < |messages| && j != k && Counts(messages[j], c) ==> Later(messages[k], messages[j])
  {
    hide NewestUpto;
    NewestUptoIsNewest(messages, c, |messages|);
    var r := Newest(messages, c);
    if r.Some? && r.value != k && Counts(messages[k], c) { assert !Later(messages[k], messages[r.value]); }
  }

  lemma {:induction false} LastAtIsLast(messages: seq<Message>, c: ConversationId, inbound: bool, n: nat)
    requires n <= |messages|
    ensures var r := LastAtUpto(messages, c, inbound, n);
      && (r.Some? ==> exists k :: 0 <= k < n && Counts(messages[k], c)
                                  && messages[k].isInbound == inbound && messages[k].occurredAt == r.value)
      && (forall k :: 0 <= k < n && Counts(messages[k], c) && messages[k].isInbound == inbound
            ==> r.Some? && messages[k].occurredAt <= r.value)
  {
    if n > 0 {
      LastAtIsLast(messages, c, inbound, n - 1);
      var r := LastAtUpto(messages, c, inbound, n - 1);
      if r.Some? {
        var k :| 0 <= k < n - 1 && Counts(messages[k], c) && messages[k].isInbound == inbound
          && messages[k].occurredAt == r.value;
        assert Counts(messages[k], c);
      }
      assert Counts(messages[n - 1], c) || !Counts(messages[n - 1], c);
    }
  }

  // ---- Rules ----

  /** A conversation never both needs a reply and waits for one, whatever its history. */
  lemma ReplyExcludesWaiting(messages: seq<Message>, row: Conversation, c: ConversationId, now: int)
    ensures var needs := Derive(FactsOf(messages, row, c), now); !(needs.needsReply && needs.waitingOnOther)
  {
    hide NewestUpto, LastAtUpto;
    NewestUptoIsNewest(messages, c, |messages|);
    LastAtIsLast(messages, c, true, |messages|);
    LastAtIsLast(messages, c, false, |messages|);
    var newest := Newest(messages, c);
    if newest.Some? && messages[newest.value].isInbound { assert Counts(messages[newest.value], c); }
  }

  /** What waits has a newest message that is not inbound, unless two share the latest time. */
  lemma WaitingMeansSentLast(messages: seq<Message>, row: Conversation, c: ConversationId)
    ensures var f := FactsOf(messages, row, c);
      WaitingOnOther(f) <==> f.latest.Some? && !f.latest.value.isInbound
                             && (f.lastIn.None? || f.lastIn.value < f.latest.value.occurredAt)
  {
    hide NewestUpto, LastAtUpto;
    NewestUptoIsNewest(messages, c, |messages|);
    LastAtIsLast(messages, c, true, |messages|);
    LastAtIsLast(messages, c, false, |messages|);
    var f, newest := FactsOf(messages, row, c), Newest(messages, c);
    if newest.Some? { assert Counts(messages[newest.value], c); }
  }

  /** Acting now or later is only ever about something unread. */
  lemma ActingNeedsReading(f: Facts, now: int)
    ensures var needs := Derive(f, now);
      && (needs.importantNow ==> needs.needsRead)
      && (needs.followUpLater ==> needs.needsRead)
  {
    var latest := f.latest;
    assert f.source == MATRIX || f.source == OUTLOOK || !(ImportantNow(f, now) || FollowUpLater(f, now));
  }

  /** The score lies in [0, 1] and tells what is ready from what is not, with a gap between; what
      needs a reply or is important scores the maximum. */
  lemma ScoreSeparates(f: Facts, now: int)
    ensures var needs := Derive(f, now);
      && 0 <= needs.priority <= ONE
      && (if needs.readyToAct then needs.priority >= 7_200 else needs.priority <= 6_525)
      && (needs.needsReply || needs.importantNow ==> needs.priority == ONE)
  {
    ActingNeedsReading(f, now);
    var social, urgency := SocialWeight(f), UrgencyScore(f, now);
    assert 500 <= social * 2 / 10 <= 1_700;
    assert 700 <= urgency * 35 / 100 <= 3_325;
  }

  // ---- After the script ----

  /** A message carries its conversation's flags if it is the newest; any other has none, provided
      its own source is one the script clears or it had none before. */
  lemma FlagsAfter(db: Db, now: int, k: MessageId)
    requires k < |db.messages|
    ensures var after := Derived(db, now); var m := after.messages[k];
      if Carries(db, k)
      then m.conversation.Some? && m.conversation.value < |after.conversations|
           && m.needsRead == Some(after.conversations[m.conversation.value].needs.needsRead)
           && m.needsReply == Some(after.conversations[m.conversation.value].needs.needsReply)
      else m.needsRead.None? && m.needsReply.None?
           <==> Watched(db.messages[k].source) || (db.messages[k].needsRead.None? && db.messages[k].needsReply.None?)
  {
    hide Derive, Newest;
  }

  predicate CarriesFor(db: Db, c: ConversationId, k: int) {
    0 <= k < |db.messages| && db.messages[k].conversation == Some(c) && Carries(db, k)
  }

  /** Every watched conversation that has a message still there has just one that carries flags. */
  lemma OneCarrier(db: Db, c: ConversationId)
    requires c < |db.conversations| && Watched(db.conversations[c].source)
    ensures (exists k :: 0 <= k < |db.messages| && Counts(db.messages[k], c))
      <==> (exists k :: CarriesFor(db, c, k))
    ensures forall j, k :: CarriesFor(db, c, j) && CarriesFor(db, c, k) ==> j == k
  {
    hide NewestUpto;
    NewestUptoIsNewest(db.messages, c, |db.messages|);
    var newest := Newest(db.messages, c);
    if newest.Some? { assert CarriesFor(db, c, newest.value); }
  }

  /** A second run at the same instant changes nothing. */
  lemma RerunChangesNothing(db: Db, now: int)
    ensures Derived(Derived(db, now), now) == Derived(db, now)
  {
    hide Derive, Newest;
    var once := Derived(db, now);
    var twice := Derived(once, now);
    BareAfter(db, now);
    forall c | 0 <= c < |db.conversations| ensures twice.conversations[c] == once.conversations[c] {
      SameConversation(db, once, c, now);
    }
    forall k | 0 <= k < |db.messages| ensures twice.messages[k] == once.messages[k] {
      SameMessage(db, once, k, now);
    }
  }

  lemma BareAfter(db: Db, now: int)
    ensures SameBare(Derived(db, now).messages, db.messages)
  {
    hide Derive, Newest, DerivedConversation, Carries;
  }

  lemma SameConversation(db: Db, once: Db, c: ConversationId, now: int)
    requires SameBare(once.messages, db.messages) && c < |db.conversations| == |once.conversations|
    requires once.conversations[c] == DerivedConversation(db, c, now)
    ensures DerivedConversation(once, c, now) == once.conversations[c]
  {
    hide Derive, Newest, LastAt;
    var row := db.conversations[c];
    SameFacts(once.messages, db.messages, row, c, now);
    assert FactsOf(once.messages, once.conversations[c], c) == FactsOf(once.messages, row, c);
  }

  lemma SameMessage(db: Db, once: Db, k: MessageId, now: int)
    requires once == Derived(db, now) && SameBare(once.messages, db.messages) && k < |db.messages|
    requires forall c :: 0 <= c < |db.conversations| ==> DerivedConversation(once, c, now) == once.conversations[c]
    ensures DerivedMessage(once, k, now) == once.messages[k]
  {
    hide Derive, Newest;
    var c := db.messages[k].conversation;
    assert Bare(once.messages[k]) == Bare(db.messages[k]);
    assert once.messages[k].conversation == c;
    if c.Some? && c.value < |db.conversations| {
      SameFacts(once.messages, db.messages, db.conversations[c.value], c.value, now);
      assert once.conversations[c.value] == DerivedConversation(db, c.value, now);
    }
    assert Carries(once, k) == Carries(db, k);
  }
}
