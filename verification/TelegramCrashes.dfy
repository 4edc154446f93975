/** Exactness of an uninterrupted backfill, and the exact loss of an interrupted one. */
module TelegramCrashes {
  import opened Telegram
  import opened TelegramProperties

  /** A run against an honest remote side that holds `ids`. */
  datatype Attempt = Attempt(ids: seq<Id>, limit: int, writes: nat)

  function Tried(s: Stored, a: Attempt): Stored {
    After(s, Run(Honest(a.ids), a.limit, a.writes))
  }

  function TriedAll(s: Stored, attempts: seq<Attempt>): Stored {
    if attempts == [] then s else Tried(TriedAll(s, attempts[..|attempts| - 1]), attempts[|attempts| - 1])
  }

  predicate AllHonest(attempts: seq<Attempt>) {
    forall i :: 0 <= i < |attempts| ==> NewestFirst(attempts[i].ids)
  }

  /** The dialog's ids above the mark, newest first. */
  function Above(s: Stored, a: Attempt): seq<Id> {
    Matching(a.ids, 0, s.mark)
  }

  function Quota(s: Stored, a: Attempt): (r: nat)
    ensures r <= |Above(s, a)|
  {
    Reach(Above(s, a), 0, a.limit)
  }

  predicate Finishes(s: Stored, a: Attempt) {
    |Walk(Honest(a.ids), a.limit, 0, s.mark, s.mark)| <= a.writes
  }

  /** The newest `full` ids, and the `part` oldest of the page after. */
  function Reached(d: seq<Id>, full: nat, part: nat, quota: nat): multiset<Id>
    requires full <= quota <= |d| && part <= PageEnd(d, full, quota) - full
  {
    multiset(d[..full]) + multiset(d[PageEnd(d, full, quota) - part..PageEnd(d, full, quota)])
  }

  /** `more` was ingested after what was there before. */
  predicate Extends(before: seq<Id>, after: seq<Id>, more: multiset<Id>) {
    before <= after && multiset(after[|before|..]) == more
  }

  /** What a run adds to the table, wherever it breaks off: the newest `full` ids, in whole pages,
      and the `part` oldest of the page after; the mark moves to the newest id once a page is done. */
  ghost predicate Adds(s: Stored, a: Attempt, full: nat, part: nat) {
    var d, quota, after := Above(s, a), Quota(s, a), Tried(s, a);
    && full <= quota && PageBoundary(full, 0, quota)
    && part <= PageEnd(d, full, quota) - full
    && (full == quota <==> Finishes(s, a))
    && after.mark == (if full > 0 then d[0] else s.mark)
    && Extends(s.ingested, after.ingested, Reached(d, full, part, quota))
  }

  lemma StoppedFacts(d: seq<Id>, limit: int, w: nat, full: nat, part: nat, s: Stored)
    requires StoppedAt(d, 0, limit, s.mark, w, full, part)
    ensures var quota, all := Reach(d, 0, limit), Pages(d, 0, limit, s.mark);
      && full <= quota && PageBoundary(full, 0, quota) && part <= PageEnd(d, full, quota) - full
      && (full == quota <==> |all| <= w)
      && Perform(s, Upto(all, w)).mark == (if full > 0 then Max(s.mark, d[0]) else s.mark)
      && multiset(Ids(Upto(all, w))) == Reached(d, full, part, quota)
  {
    hide Perform, Ids, Pages, PageBoundary, PageEnd;
    assert d[0..full] == d[..full];
  }

  lemma TriedInPages(s: Stored, a: Attempt)
    requires NewestFirst(a.ids)
    ensures var all := Pages(Above(s, a), 0, a.limit, s.mark);
      && Tried(s, a) == Perform(s, Upto(all, a.writes)) && (Finishes(s, a) <==> |all| <= a.writes)
  {
    hide Perform, Pages, Walk, Matching, NewestFirst;
    WalkIsPages(a.ids, s.mark, 0, a.limit, s.mark);
  }

  lemma AboveIs(s: Stored, a: Attempt)
    requires NewestFirst(a.ids)
    ensures NewestFirst(Above(s, a)) && forall id :: id in Above(s, a) <==> id in a.ids && id > s.mark
  {
    MatchingOrder(a.ids, s.mark);
  }

  lemma AboveStarts(s: Stored, a: Attempt)
    requires NewestFirst(a.ids)
    ensures NewestFirst(Above(s, a)) && (Above(s, a) != [] ==> Above(s, a)[0] > s.mark)
  {
    AboveIs(s, a);
    assert Above(s, a) != [] ==> Above(s, a)[0] in Above(s, a);
  }

  lemma ExtendsBy(before: seq<Id>, after: seq<Id>, more: seq<Id>)
    requires after == before + more
    ensures Extends(before, after, multiset(more))
  {
    assert after[|before|..] == more;
  }

  lemma AddsWhen(s: Stored, a: Attempt, full: nat, part: nat, more: seq<Id>)
    requires var d, quota, after := Above(s, a), Quota(s, a), Tried(s, a);
      && full <= quota && PageBoundary(full, 0, quota) && part <= PageEnd(d, full, quota) - full
      && (full == quota <==> Finishes(s, a))
      && (d != [] ==> d[0] > s.mark) && after.mark == (if full > 0 then Max(s.mark, d[0]) else s.mark)
      && after.ingested == s.ingested + more && multiset(more) == Reached(d, full, part, quota)
    ensures Adds(s, a, full, part)
  {
    hide Above, Quota, Tried, Finishes, Extends, Reached, PageBoundary, PageEnd;
    ExtendsBy(s.ingested, Tried(s, a).ingested, more);
  }

  lemma WhatARunAdds(s: Stored, a: Attempt) returns (full: nat, part: nat)
    requires NewestFirst(a.ids)
    ensures Adds(s, a, full, part)
  {
    AboveStarts(s, a);
    TriedInPages(s, a);
    hide Perform, Ids, Pages, NewestFirst, StoppedAt, Tried, Finishes;
    hide Upto, Above, Extends, Reached, PageBoundary, PageEnd, Adds;
    var d := Above(s, a);
    full, part := CrashPoint(d, 0, a.limit, s.mark, a.writes);
    StoppedFacts(d, a.limit, a.writes, full, part, s);
    var writes := Upto(Pages(d, 0, a.limit, s.mark), a.writes);
    PerformIngests(s, writes);
    AddsWhen(s, a, full, part, Ids(writes));
  }

  lemma ReachedAll(d: seq<Id>, part: nat, quota: nat)
    requires quota <= |d| && part <= PageEnd(d, quota, quota) - quota
    ensures Reached(d, quota, part, quota) == multiset(d[..quota])
  {
    assert PageEnd(d, quota, quota) == quota && part == 0;
    assert d[quota..quota] == [];
  }

  lemma QuotaIs(s: Stored, a: Attempt)
    ensures Quota(s, a) == if a.limit < 0 then 0 else Min(a.limit, |Above(s, a)|)
  {
    hide Above;
  }

  /** An uninterrupted run ingests just the newest `limit` ids above the mark, each once, and
      leaves the mark at the newest id of all. */
  lemma UninterruptedIsExact(s: Stored, a: Attempt)
    requires NewestFirst(a.ids) && Finishes(s, a)
    ensures var d, after := Above(s, a), Tried(s, a);
      && Extends(s.ingested, after.ingested, multiset(d[..Quota(s, a)]))
      && (Quota(s, a) == if a.limit < 0 then 0 else Min(a.limit, |d|))
      && after.mark == (if Quota(s, a) > 0 then Max(s.mark, d[0]) else s.mark)
  {
    QuotaIs(s, a);
    AboveStarts(s, a);
    hide NewestFirst, Above, Quota, Tried, Extends, Reached, Finishes, PageEnd, PageBoundary;
    var full, part := WhatARunAdds(s, a);
    ReachedAll(Above(s, a), part, full);
  }

  lemma ExtendedMembers(before: seq<Id>, after: seq<Id>, more: multiset<Id>, id: Id)
    requires Extends(before, after, more)
    ensures id in after <==> id in before || id in more
  {
    var added := after[|before|..];
    assert after == before + added;
    assert id in added <==> id in multiset(added);
  }

  lemma ReachedMembers(d: seq<Id>, full: nat, part: nat, quota: nat, id: Id)
    requires full <= quota <= |d| && part <= PageEnd(d, full, quota) - full
    ensures var end := PageEnd(d, full, quota);
      id in Reached(d, full, part, quota) <==> id in d[..full] || id in d[end - part..end]
  {
    var end := PageEnd(d, full, quota);
    assert id in d[..full] <==> id in multiset(d[..full]);
    assert id in d[end - part..end] <==> id in multiset(d[end - part..end]);
  }

  lemma IngestedMembers(s: Stored, a: Attempt, full: nat, part: nat, id: Id)
    requires Adds(s, a, full, part)
    ensures var d, end := Above(s, a), PageEnd(Above(s, a), full, Quota(s, a));
      id in Tried(s, a).ingested <==> id in s.ingested || id in d[..full] || id in d[end - part..end]
  {
    hide Above, Tried, Quota, Finishes, Extends, Reached, PageEnd, PageBoundary;
    ExtendedMembers(s.ingested, Tried(s, a).ingested, Reached(Above(s, a), full, part, Quota(s, a)), id);
    ReachedMembers(Above(s, a), full, part, Quota(s, a), id);
  }

  /** Ids at or below the mark are never read again. */
  lemma {:induction false} NeverReadAgain(s: Stored, attempts: seq<Attempt>, id: Id)
    requires AllHonest(attempts) && id <= s.mark
    ensures id in TriedAll(s, attempts).ingested <==> id in s.ingested
    ensures s.mark <= TriedAll(s, attempts).mark
  {
    hide Tried, Adds, Above, NewestFirst;
    if attempts != [] {
      var before, last := TriedAll(s, attempts[..|attempts| - 1]), attempts[|attempts| - 1];
      NeverReadAgain(s, attempts[..|attempts| - 1], id);
      var full, part := WhatARunAdds(before, last);
      IngestedMembers(before, last, full, part, id);
      AboveTheMark(before, last, id, full);
      MarkGrows(before, last);
    }
  }

  lemma AboveTheMark(s: Stored, a: Attempt, id: Id, full: nat)
    requires NewestFirst(a.ids) && id <= s.mark
    ensures id !in Above(s, a)
  {
    AboveIs(s, a);
  }

  lemma MarkGrows(s: Stored, a: Attempt)
    ensures s.mark <= Tried(s, a).mark
  {
    MarkNeverFalls(s, Run(Honest(a.ids), a.limit, a.writes), a.writes);
  }

  /** The cost of a crash. If a run breaks off after moving the mark, then of the ids that were
      above the mark, and not stored already, just those it ingested before the crash are ever
      backfilled, whatever runs follow: the done pages and the oldest part of the page in hand. */
  lemma CrashLoss(s: Stored, a: Attempt, later: seq<Attempt>) returns (full: nat, part: nat)
    requires NewestFirst(a.ids) && AllHonest(later) && Tried(s, a).mark != s.mark
    ensures Adds(s, a, full, part)
    ensures forall id :: s.mark < id <= Tried(s, a).mark ==> (id in TriedAll(Tried(s, a), later).ingested
        <==> id in Tried(s, a).ingested)
    ensures var d, end := Above(s, a), PageEnd(Above(s, a), full, Quota(s, a));
      forall id :: id in d && id !in s.ingested
        ==> (id in TriedAll(Tried(s, a), later).ingested <==> id in d[..full] || id in d[end - part..end])
  {
    hide Tried, TriedAll, Quota, Matching;
    full, part := WhatARunAdds(s, a);
    var d, end := Above(s, a), PageEnd(Above(s, a), full, Quota(s, a));
    AboveIs(s, a);
    forall id | id <= Tried(s, a).mark
      ensures id in TriedAll(Tried(s, a), later).ingested <==> id in Tried(s, a).ingested
    {
      NeverReadAgain(Tried(s, a), later, id);
    }
    forall id | id in d && id !in s.ingested
      ensures id in TriedAll(Tried(s, a), later).ingested <==> id in d[..full] || id in d[end - part..end]
    {
      NewestIsFirst(d, id);
      IngestedMembers(s, a, full, part, id);
    }
  }

  /** The loss comes in pages: what is done is a whole number of hundreds, unless nothing was left over, and of
      the page in hand, of a hundred or what was left to read, some of the oldest were stored. */
  lemma LossInHundreds(s: Stored, a: Attempt, full: nat, part: nat)
    requires Adds(s, a, full, part)
    ensures full == Quota(s, a) || full % 100 == 0
    ensures PageEnd(Above(s, a), full, Quota(s, a)) == (if Quota(s, a) - full > 100 then full + 100 else Quota(s, a))
    ensures part <= 100 && full + part <= Quota(s, a)
  {
    hide Above, Tried, Quota, Finishes, Extends, Reached;
  }

  lemma NewestIsFirst(d: seq<Id>, id: Id)
    requires NewestFirst(d) && id in d
    ensures id <= d[0]
  {
  }

  /** Any run stores what was stored and at most its quota; a finished one stores all of that. */
  lemma IdsWithinQuota(s: Stored, a: Attempt, id: Id)
    requires NewestFirst(a.ids)
    ensures id in s.ingested ==> id in Tried(s, a).ingested
    ensures id in Tried(s, a).ingested ==> id in s.ingested || id in Above(s, a)[..Quota(s, a)]
    ensures Finishes(s, a) && id in Above(s, a)[..Quota(s, a)] ==> id in Tried(s, a).ingested
  {
    hide Tried, Matching, Walk, Reach;
    var full, part := WhatARunAdds(s, a);
    IngestedMembers(s, a, full, part, id);
    var d, end := Above(s, a), PageEnd(Above(s, a), full, Quota(s, a));
    assert d[..full] == d[..Quota(s, a)][..full];
    assert d[end - part..end] == d[..Quota(s, a)][end - part..end];
  }

  /** A crash before the first mark loses nothing: running again to the end stores the same ids
      and leaves the same mark as a run that was never interrupted. */
  lemma EarlyCrashLosesNothing(s: Stored, a: Attempt, enough: nat)
    requires NewestFirst(a.ids) && Tried(s, a).mark == s.mark
    requires Finishes(s, a.(writes := enough))
    ensures var again, straight := Tried(Tried(s, a), a.(writes := enough)), Tried(s, a.(writes := enough));
      again.mark == straight.mark && forall id :: id in again.ingested <==> id in straight.ingested
  {
    var s1, whole := Tried(s, a), a.(writes := enough);
    SameWalk(s, s1, whole);
    hide Tried, Above, Quota, Finishes;
    UninterruptedIsExact(s, whole);
    UninterruptedIsExact(s1, whole);
    SameAbove(s, a, whole);
    forall id ensures id in Tried(s1, whole).ingested <==> id in Tried(s, whole).ingested {
      IdsWithinQuota(s, a, id);
      IdsWithinQuota(s1, whole, id);
      IdsWithinQuota(s, whole, id);
    }
  }

  lemma SameAbove(s: Stored, a: Attempt, b: Attempt)
    requires a.ids == b.ids && a.limit == b.limit
    ensures Above(s, a) == Above(s, b) && Quota(s, a) == Quota(s, b)
  {
  }

  lemma SameWalk(s: Stored, s1: Stored, a: Attempt)
    requires s.mark == s1.mark
    ensures Above(s, a) == Above(s1, a) && Finishes(s, a) == Finishes(s1, a) && Quota(s, a) == Quota(s1, a)
  {
  }
}
