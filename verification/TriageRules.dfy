/** When the triage script sets each flag and score, read off the two tables. */
module TriageRules {
  import opened Options
  import opened Triage
  import opened TriageProperties

  const DAY := 24 * HOUR

  /** Message `k` is one of the conversation's, still there. */
  predicate There(db: Db, c: ConversationId, k: int) {
    0 <= k < |db.messages| && db.messages[k].conversation == Some(c) && !db.messages[k].removed
  }

  predicate After(a: Message, b: Message) {
    b.occurredAt < a.occurredAt || (b.occurredAt == a.occurredAt && b.id < a.id)
  }

  ghost predicate NewestOf(db: Db, c: ConversationId, k: int) {
    There(db, c, k) && forall j :: There(db, c, j) && j != k ==> After(db.messages[k], db.messages[j])
  }

  ghost predicate Empty(db: Db, c: ConversationId) {
    forall k :: !There(db, c, k)
  }

  /** Everything sent in the conversation was sent before then. */
  ghost predicate SentBefore(db: Db, c: ConversationId, at: int) {
    forall j :: There(db, c, j) && !db.messages[j].isInbound ==> db.messages[j].occurredAt < at
  }

  /** Everything received in the conversation was received before then. */
  ghost predicate ReceivedBefore(db: Db, c: ConversationId, at: int) {
    forall j :: There(db, c, j) && db.messages[j].isInbound ==> db.messages[j].occurredAt < at
  }

  predicate Texted(text: string) {
    text !in ["[non-text message]", "[non-text event]", ""]
  }

  function NeedsOf(db: Db, c: ConversationId, now: int): Needs
    requires c < |db.conversations|
  {
    Derived(db, now).conversations[c].needs
  }

  // ---- The rules' input is what the tables say ----

  lemma NewestFound(db: Db, c: ConversationId, k: int)
    requires NewestOf(db, c, k)
    ensures Newest(db.messages, c) == Some(k)
  {
    hide NewestUpto;
    NewestUptoIsNewest(db.messages, c, |db.messages|);
    assert Counts(db.messages[k], c);
    var r := Newest(db.messages, c);
    assert !Later(db.messages[k], db.messages[r.value]) && There(db, c, r.value);
  }

  lemma LastFound(db: Db, c: ConversationId, at: int)
    ensures var lastOut, lastIn := LastAt(db.messages, c, false), LastAt(db.messages, c, true);
      && (SentBefore(db, c, at) <==> lastOut.None? || lastOut.value < at)
      && (ReceivedBefore(db, c, at) <==> lastIn.None? || lastIn.value < at)
  {
    hide LastAtUpto;
    LastAtIsLast(db.messages, c, false, |db.messages|);
    LastAtIsLast(db.messages, c, true, |db.messages|);
    var lastOut, lastIn := LastAt(db.messages, c, false), LastAt(db.messages, c, true);
    assert forall j :: There(db, c, j) ==> Counts(db.messages[j], c);
    if lastOut.Some? {
      var j :| 0 <= j < |db.messages| && Counts(db.messages[j], c) && !db.messages[j].isInbound
        && db.messages[j].occurredAt == lastOut.value;
      assert There(db, c, j);
    }
    if lastIn.Some? {
      var j :| 0 <= j < |db.messages| && Counts(db.messages[j], c) && db.messages[j].isInbound
        && db.messages[j].occurredAt == lastIn.value;
      assert There(db, c, j);
    }
  }

  /** What the script's rules see of a conversation is its newest message and its last times. */
  lemma Seen(db: Db, c: ConversationId, k: int, now: int)
    requires c < |db.conversations| && db.conversations[c].source in [MATRIX, OUTLOOK] && NewestOf(db, c, k)
    ensures var f := FactsOf(db.messages, db.conversations[c], c);
      && NeedsOf(db, c, now) == Derive(f, now)
      && f.source == db.conversations[c].source && f.participants == db.conversations[c].participants
      && f.latest == Some(db.messages[k])
      && (SentBefore(db, c, db.messages[k].occurredAt) <==> Unanswered(f, db.messages[k]))
      && (ReceivedBefore(db, c, db.messages[k].occurredAt) <==>
            f.lastIn.None? || f.lastIn.value < db.messages[k].occurredAt)
  {
    hide Newest, LastAt, Derive;
    NewestFound(db, c, k);
    LastFound(db, c, db.messages[k].occurredAt);
  }

  // ---- The flags ----

  /** A conversation needs a reply if and only if its newest message came in, can be read, and nothing was
      sent since; on Matrix not from a bot and among at most six, by mail from a person and among at most
      twelve. */
  lemma NeedsReplyWhen(db: Db, c: ConversationId, k: int, now: int)
    requires c < |db.conversations| && db.conversations[c].source in ["matrix", "outlook"] && NewestOf(db, c, k)
    ensures var row, m := db.conversations[c], db.messages[k];
      NeedsOf(db, c, now).needsReply <==>
        && m.isInbound && Texted(m.text) && m.text != "[undecrypted]" && SentBefore(db, c, m.occurredAt)
        && (row.source == "matrix" ==> row.participants <= 6 && !m.fromBot)
        && (row.source == "outlook" ==> row.participants <= 12 && m.mailIsHuman)
  {
    hide FactsOf, NeedsOf, There, NewestOf, SentBefore, ReceivedBefore;
    Seen(db, c, k, now);
  }

  /** It needs reading if and only if its newest message came in and, if it is mail, was not read. */
  lemma NeedsReadWhen(db: Db, c: ConversationId, k: int, now: int)
    requires c < |db.conversations| && db.conversations[c].source in ["matrix", "outlook"] && NewestOf(db, c, k)
    ensures NeedsOf(db, c, now).needsRead
      <==> db.messages[k].isInbound && (db.conversations[c].source == "outlook" ==> !db.messages[k].isRead)
  {
    hide FactsOf, NeedsOf, There, NewestOf, SentBefore, ReceivedBefore;
    Seen(db, c, k, now);
  }

  /** It waits for the other side if and only if its newest message was sent, and later than all received;
      it lacks context if and only if it is on Matrix and that message could not be decrypted. */
  lemma WaitsWhen(db: Db, c: ConversationId, k: int, now: int)
    requires c < |db.conversations| && db.conversations[c].source in ["matrix", "outlook"] && NewestOf(db, c, k)
    ensures NeedsOf(db, c, now).waitingOnOther
      <==> !db.messages[k].isInbound && ReceivedBefore(db, c, db.messages[k].occurredAt)
    ensures NeedsOf(db, c, now).blockedNeedsContext
      <==> db.conversations[c].source == "matrix" && db.messages[k].text == "[undecrypted]"
  {
    hide NeedsOf, There, NewestOf, SentBefore, ReceivedBefore, Newest, LastAt;
    Seen(db, c, k, now);
    WaitingMeansSentLast(db.messages, db.conversations[c], c);
  }

  /** It is important now if and only if its newest message came in, is text or undecrypted, and is at most
      two days old or speaks of soon; on Matrix among at most eight unless undecrypted, by mail from a person
      and unread. */
  lemma ImportantWhen(db: Db, c: ConversationId, k: int, now: int)
    requires c < |db.conversations| && db.conversations[c].source in ["matrix", "outlook"] && NewestOf(db, c, k)
    ensures var row, m := db.conversations[c], db.messages[k];
      NeedsOf(db, c, now).importantNow <==>
        && m.isInbound && Texted(m.text) && (now - m.occurredAt <= 2 * DAY || m.saysSoon)
        && (row.source == "matrix" ==> row.participants <= 8 || m.text == "[undecrypted]")
        && (row.source == "outlook" ==> m.mailIsHuman && !m.isRead)
  {
    hide FactsOf, NeedsOf, There, NewestOf, SentBefore, ReceivedBefore;
    Seen(db, c, k, now);
  }

  /** It is to be followed up if and only if its newest message came in, can be read, and is over eighteen hours
      but at most two weeks old; on Matrix among at most twelve and unanswered, by mail from a person and
      unread. */
  lemma FollowUpWhen(db: Db, c: ConversationId, k: int, now: int)
    requires c < |db.conversations| && db.conversations[c].source in ["matrix", "outlook"] && NewestOf(db, c, k)
    ensures var row, m := db.conversations[c], db.messages[k];
      NeedsOf(db, c, now).followUpLater <==>
        && m.isInbound && Texted(m.text) && m.text != "[undecrypted]"
        && 18 * HOUR < now - m.occurredAt <= 14 * DAY
        && (row.source == "matrix" ==> row.participants <= 12 && SentBefore(db, c, m.occurredAt))
        && (row.source == "outlook" ==> m.mailIsHuman && !m.isRead)
  {
    hide FactsOf, NeedsOf, There, NewestOf, SentBefore, ReceivedBefore;
    Seen(db, c, k, now);
  }

  // ---- The scores ----

  /** The social weight goes by the number of people, and is highest in small circles. */
  function Weight(source: string, people: nat): int {
    if source == "matrix" then (if people < 2 || people > 8 then 2_500 else if people < 5 then 8_500 else 5_500)
    else if people < 2 || people > 12 then 2_500 else if people < 7 then 8_000 else 5_000
  }

  /** Urgency is set by the first of these that applies: a word of time, a question, a word of something to
      do, at most a day's age. */
  lemma UrgencyWhen(db: Db, c: ConversationId, k: int, now: int)
    requires c < |db.conversations| && db.conversations[c].source in ["matrix", "outlook"] && NewestOf(db, c, k)
    ensures var m, urgency := db.messages[k], NeedsOf(db, c, now).urgency;
      && (urgency == 9_500 <==> m.saysWhen)
      && (urgency == 7_500 <==> !m.saysWhen && m.asks)
      && (urgency == 7_000 <==> !m.saysWhen && !m.asks && m.saysDo)
      && (urgency == 5_500 <==> !m.saysWhen && !m.asks && !m.saysDo && now - m.occurredAt <= DAY)
      && urgency in {9_500, 7_500, 7_000, 5_500, 2_000}
    ensures NeedsOf(db, c, now).social == Weight(db.conversations[c].source, db.conversations[c].participants)
  {
    hide FactsOf, NeedsOf, There, NewestOf, SentBefore, ReceivedBefore;
    hide NeedsRead, NeedsReply, WaitingOnOther, ImportantNow, FollowUpLater, PriorityScore;
    Seen(db, c, k, now);
  }

  /** Something is ready to act on exactly if it needs reading or a reply. It scores the maximum if it needs a
      reply or is important now; otherwise what is read weighs 0.6, the social weight a fifth, urgency 35 in
      a hundred and lacking context 0.15, up to the maximum. Being due for a follow-up adds nothing. */
  lemma PriorityWhen(db: Db, c: ConversationId, now: int)
    requires c < |db.conversations| && db.conversations[c].source in ["matrix", "outlook"]
    ensures var needs := NeedsOf(db, c, now);
      && (needs.readyToAct <==> needs.needsRead || needs.needsReply)
      && (needs.needsReply || needs.importantNow ==> needs.priority == ONE)
      && (!needs.needsReply && !needs.importantNow ==>
            var sum := (if needs.needsRead then 6_000 else 0) + needs.social / 5 + needs.urgency * 35 / 100
              + (if needs.blockedNeedsContext then 1_500 else 0);
            needs.priority == if sum <= ONE then sum else ONE)
  {
    var f := FactsOf(db.messages, db.conversations[c], c);
    assert NeedsOf(db, c, now) == Derive(f, now);
    ActingNeedsReading(f, now);
    ScoreSeparates(f, now);
    hide FactsOf, NeedsOf, NeedsRead, NeedsReply, WaitingOnOther, BlockedNeedsContext, ImportantNow, FollowUpLater;
    FifthOf(SocialWeight(f));
  }

  lemma FifthOf(x: int)
    ensures x * 2 / 10 == x / 5
  {
  }

  /** A watched conversation with nothing in it has no flags and the least urgency; a row of any other source
      is left as it was. */
  lemma NothingThere(db: Db, c: ConversationId, now: int)
    requires c < |db.conversations|
    ensures db.conversations[c].source in ["matrix", "outlook"] && Empty(db, c) ==>
      var needs := NeedsOf(db, c, now);
      !needs.needsRead && !needs.needsReply && !needs.waitingOnOther && !needs.blockedNeedsContext
      && !needs.importantNow && !needs.followUpLater && needs.urgency == 2_000
      && needs.social == Weight(db.conversations[c].source, db.conversations[c].participants)
    ensures db.conversations[c].source !in ["matrix", "outlook"]
      ==> Derived(db, now).conversations[c] == db.conversations[c]
    ensures Derived(db, now).conversations[c] == db.conversations[c].(needs := NeedsOf(db, c, now))
  {
    hide NewestUpto, LastAtUpto;
    LastAtIsLast(db.messages, c, false, |db.messages|);
    LastAtIsLast(db.messages, c, true, |db.messages|);
    if Empty(db, c) {
      forall k | 0 <= k < |db.messages| ensures !Counts(db.messages[k], c) {
        assert !There(db, c, k);
      }
    }
  }

  /** The newest message of a watched conversation carries what was derived; every other message of a watched
      source carries nothing. */
  lemma FlagsFollow(db: Db, c: ConversationId, k: int, now: int)
    requires c < |db.conversations| && db.conversations[c].source in ["matrix", "outlook"] && NewestOf(db, c, k)
    ensures var after := Derived(db, now);
      && after.messages[k].needsRead == Some(NeedsOf(db, c, now).needsRead)
      && after.messages[k].needsReply == Some(NeedsOf(db, c, now).needsReply)
      && forall j :: There(db, c, j) && j != k && db.messages[j].source in ["matrix", "outlook"] ==>
           after.messages[j].needsRead.None? && after.messages[j].needsReply.None?
  {
    hide Newest, Derive;
    NewestFound(db, c, k);
    FlagsAfter(db, now, k);
    forall j | There(db, c, j) && j != k && db.messages[j].source in ["matrix", "outlook"]
      ensures Derived(db, now).messages[j].needsRead.None? && Derived(db, now).messages[j].needsReply.None?
    {
      FlagsAfter(db, now, j);
    }
  }
}
