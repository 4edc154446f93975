/** What a backfill stores when the remote side is honest, and what a crash costs. */
module TelegramProperties {
  import opened Telegram

  // ---- The mark, whatever the remote side answers ----

  predicate AtLeast(writes: seq<Write>, low: Id) {
    forall i :: 0 <= i < |writes| && writes[i].Mark? ==> low <= writes[i].id
  }

  predicate Rising(writes: seq<Write>) {
    forall i, j :: 0 <= i < j < |writes| && writes[i].Mark? && writes[j].Mark? ==> writes[i].id <= writes[j].id
  }

  lemma {:induction false} OnlyIngests(page: seq<Id>)
    ensures |Ingests(page)| == |page| && forall i :: 0 <= i < |page| ==> Ingests(page)[i].Ingest?
  {
    if page != [] { OnlyIngests(page[1..]); }
  }

  lemma {:induction false} GreatestAtLeast(page: seq<Id>, from: Id)
    ensures from <= Greatest(page, from)
  {
    if page != [] { GreatestAtLeast(page[1..], from); }
  }

  lemma {:induction false} WalkRises(fetch: Fetch, remaining: int, offset: Id, min: Id, newest: Id)
    ensures AtLeast(Walk(fetch, remaining, offset, min, newest), Max(min, newest))
    ensures Rising(Walk(fetch, remaining, offset, min, newest))
    decreases remaining
  {
    if remaining > 0 {
      var page := fetch(Min(remaining, PAGE), offset, min);
      if page != [] {
        OnlyIngests(page);
        GreatestAtLeast(page, newest);
        if |page| >= Min(remaining, PAGE) {
          WalkRises(fetch, remaining - |page|, Least(page), min, Greatest(page, newest));
        }
      }
    }
  }

  lemma {:induction false} MarkIsOneWritten(s: Stored, writes: seq<Write>, n: nat)
    requires n <= |writes|
    ensures var mark := Perform(s, writes[..n]).mark;
      mark == s.mark || exists i :: 0 <= i < n && writes[i] == Mark(mark)
  {
    if n > 0 {
      assert writes[..n][..n - 1] == writes[..n - 1];
      MarkIsOneWritten(s, writes, n - 1);
    }
  }

  lemma {:induction false} MarkRises(s: Stored, writes: seq<Write>, n1: nat, n2: nat)
    requires n1 <= n2 <= |writes| && AtLeast(writes, s.mark) && Rising(writes)
    ensures Perform(s, writes[..n1]).mark <= Perform(s, writes[..n2]).mark
  {
    if n1 < n2 {
      MarkRises(s, writes, n1, n2 - 1);
      assert writes[..n2][..n2 - 1] == writes[..n2 - 1];
      MarkIsOneWritten(s, writes, n1);
    }
  }

  /** One run of a dialog: what the remote side holds, the limit, and how many writes succeed. */
  datatype Run = Run(fetch: Fetch, limit: int, writes: nat)

  function After(s: Stored, run: Run): Stored {
    Perform(s, Upto(Walk(run.fetch, run.limit, 0, s.mark, s.mark), run.writes))
  }

  function AfterAll(s: Stored, runs: seq<Run>): Stored {
    if runs == [] then s else After(AfterAll(s, runs[..|runs| - 1]), runs[|runs| - 1])
  }

  /** The longer a run gets, the higher its mark; so over any runs the mark never falls. */
  lemma MarkNeverFalls(s: Stored, run: Run, longer: nat)
    requires run.writes <= longer
    ensures s.mark <= After(s, run).mark <= After(s, run.(writes := longer)).mark
  {
    var all := Walk(run.fetch, run.limit, 0, s.mark, s.mark);
    WalkRises(run.fetch, run.limit, 0, s.mark, s.mark);
    var n1, n2 := Min(run.writes, |all|), Min(longer, |all|);
    assert Upto(all, run.writes) == all[..n1] && Upto(all, longer) == all[..n2];
    MarkRises(s, all, 0, n1);
    MarkRises(s, all, n1, n2);
  }

  lemma {:induction false} MarkNeverFallsOver(s: Stored, runs: seq<Run>)
    ensures s.mark <= AfterAll(s, runs).mark
  {
    if runs != [] {
      MarkNeverFallsOver(s, runs[..|runs| - 1]);
      MarkNeverFalls(AfterAll(s, runs[..|runs| - 1]), runs[|runs| - 1], runs[|runs| - 1].writes);
    }
  }

  // ---- An honest remote side ----

  predicate NewestFirst(ids: seq<Id>) {
    (forall i :: 0 <= i < |ids| ==> ids[i] > 0) && forall i, j :: 0 <= i < j < |ids| ==> ids[i] > ids[j]
  }

  function Matching(ids: seq<Id>, offset: Id, min: Id): seq<Id> {
    if ids == [] then []
    else (if ids[0] > min && (offset == 0 || ids[0] < offset) then [ids[0]] else []) + Matching(ids[1..], offset, min)
  }

  /** The ids that match, newest first, no more than asked for. */
  function Honest(ids: seq<Id>): Fetch {
    (limit: int, offset: Id, min: Id) =>
      var all := Matching(ids, offset, min);
      if limit < 0 then [] else if limit < |all| then all[..limit] else all
  }

  lemma {:induction false} MatchingMembers(ids: seq<Id>, min: Id, id: Id)
    ensures id in Matching(ids, 0, min) <==> id in ids && id > min
  {
    if ids != [] {
      MatchingMembers(ids[1..], min, id);
      assert id in ids <==> id == ids[0] || id in ids[1..];
    }
  }

  lemma {:induction false} MatchingDescends(ids: seq<Id>, min: Id)
    requires NewestFirst(ids)
    ensures NewestFirst(Matching(ids, 0, min))
  {
    if ids != [] {
      var rest := Matching(ids[1..], 0, min);
      MatchingDescends(ids[1..], min);
      forall j | 0 <= j < |rest| ensures rest[j] < ids[0] {
        MatchingMembers(ids[1..], min, rest[j]);
      }
    }
  }

  lemma MatchingOrder(ids: seq<Id>, min: Id)
    requires NewestFirst(ids)
    ensures NewestFirst(Matching(ids, 0, min))
    ensures forall id :: id in Matching(ids, 0, min) <==> id in ids && id > min
  {
    MatchingDescends(ids, min);
    forall id ensures id in Matching(ids, 0, min) <==> id in ids && id > min { MatchingMembers(ids, min, id); }
  }

  lemma {:induction false} MatchingAll(ids: seq<Id>, offset: Id, min: Id)
    requires forall i :: 0 <= i < |ids| ==> ids[i] < offset
    ensures Matching(ids, offset, min) == Matching(ids, 0, min)
  {
    if ids != [] { MatchingAll(ids[1..], offset, min); }
  }

  function IfMatching(id: Id, offset: Id, min: Id): seq<Id> {
    if id > min && (offset == 0 || id < offset) then [id] else []
  }

  lemma MatchingStep(ids: seq<Id>, offset: Id, min: Id)
    ensures Matching([], offset, min) == []
    ensures ids != [] ==>
      Matching(ids, offset, min) == IfMatching(ids[0], offset, min) + Matching(ids[1..], offset, min)
  {
  }

  /** Asking below the oldest id of what was read gives what is left. */
  lemma {:induction false} MatchingBelow(ids: seq<Id>, min: Id, k: nat)
    requires NewestFirst(ids) && 0 < k <= |Matching(ids, 0, min)|
    ensures Matching(ids, Matching(ids, 0, min)[k - 1], min) == Matching(ids, 0, min)[k..]
  {
    hide Matching;
    var all := Matching(ids, 0, min);
    MatchingStep(ids, 0, min);
    var rest := Matching(ids[1..], 0, min);
    MatchingStep(ids, all[k - 1], min);
    if ids[0] <= min {
      assert all == rest;
      MatchingBelow(ids[1..], min, k);
    } else {
      assert all == [ids[0]] + rest;
      if k == 1 {
        MatchingAll(ids[1..], ids[0], min);
      } else {
        OneOfRest(ids, min, k - 2);
        MatchingBelow(ids[1..], min, k - 1);
        assert all[k..] == rest[k - 1..];
      }
    }
  }

  lemma OneOfRest(ids: seq<Id>, min: Id, i: nat)
    requires ids != [] && NewestFirst(ids) && i < |Matching(ids[1..], 0, min)|
    ensures 0 < Matching(ids[1..], 0, min)[i] < ids[0]
  {
    MatchingOrder(ids[1..], min);
    assert Matching(ids[1..], 0, min)[i] in Matching(ids[1..], 0, min);
  }

  // ---- The run in pages ----

  function Reach(d: seq<Id>, k: nat, remaining: int): (r: nat)
    requires k <= |d|
    ensures k <= r <= |d|
  {
    if remaining <= 0 then k else k + Min(remaining, |d| - k)
  }

  function Pages(d: seq<Id>, k: nat, remaining: int, newest: Id): seq<Write>
    requires k <= |d|
    decreases |d| - k
  {
    if remaining <= 0 || k == |d| then [] else
    var size := Min(Min(remaining, PAGE), |d| - k);
    var top := Max(newest, d[k]);
    Ingests(d[k..k + size]) + [Mark(top)] + Pages(d, k + size, remaining - size, top)
  }

  lemma {:induction false} EndsOfPage(d: seq<Id>, newest: Id)
    requires NewestFirst(d) && d != []
    ensures Least(d) == d[|d| - 1] && Greatest(d, newest) == Max(newest, d[0])
  {
    if |d| > 1 {
      EndsOfPage(d[1..], newest);
    } else {
      assert d[1..] == [];
    }
  }

  lemma WalkStep(fetch: Fetch, remaining: int, offset: Id, min: Id, newest: Id, page: seq<Id>)
    requires remaining > 0 && page == fetch(Min(remaining, PAGE), offset, min) && page != []
    ensures var top := Greatest(page, newest);
      Walk(fetch, remaining, offset, min, newest) == Ingests(page) + [Mark(Max(min, top))] +
      if |page| < Min(remaining, PAGE) then [] else Walk(fetch, remaining - |page|, Least(page), min, top)
  {
  }

  lemma HonestPage(ids: seq<Id>, min: Id, k: nat, size: nat)
    requires NewestFirst(ids) && k <= |Matching(ids, 0, min)|
    ensures var d := Matching(ids, 0, min);
      Honest(ids)(size, if k == 0 then 0 else d[k - 1], min) == d[k..k + Min(size, |d| - k)]
  {
    hide Matching;
    var d := Matching(ids, 0, min);
    if k > 0 { MatchingBelow(ids, min, k); }
    assert Matching(ids, if k == 0 then 0 else d[k - 1], min) == d[k..];
  }

  /** One page of an honest walk, and the rest as pages, is the walk as pages. */
  lemma WalkOnePage(fetch: Fetch, d: seq<Id>, k: nat, n: nat, remaining: int, offset: Id, min: Id, newest: Id)
    requires NewestFirst(d) && k < k + n <= |d| && remaining > 0 && n == Min(Min(remaining, PAGE), |d| - k)
        && min <= newest
    requires fetch(Min(remaining, PAGE), offset, min) == d[k..k + n]
    requires var top := Max(newest, d[k]);
      Walk(fetch, remaining - n, d[k + n - 1], min, top) == Pages(d, k + n, remaining - n, top)
    ensures Walk(fetch, remaining, offset, min, newest) == Pages(d, k, remaining, newest)
  {
    hide Least, Greatest, Ingests, Walk, Pages;
    var page := d[k..k + n];
    WalkStep(fetch, remaining, offset, min, newest, page);
    EndsOfPage(page, newest);
    PagesStep(d, k, remaining, newest, n);
    if n < Min(remaining, PAGE) { PagesEnd(d, remaining - n, Max(newest, d[k])); }
    hide NewestFirst;
  }

  lemma {:induction false} WalkIsPages(ids: seq<Id>, min: Id, k: nat, remaining: int, newest: Id)
    requires NewestFirst(ids) && k <= |Matching(ids, 0, min)| && min <= newest
    ensures var d := Matching(ids, 0, min);
      Walk(Honest(ids), remaining, if k == 0 then 0 else d[k - 1], min, newest) == Pages(d, k, remaining, newest)
    decreases |Matching(ids, 0, min)| - k
  {
    hide Least, Greatest, Matching, Ingests, Honest, NewestFirst;
    var d := Matching(ids, 0, min);
    MatchingDescends(ids, min);
    var offset := if k == 0 then 0 else d[k - 1];
    if remaining <= 0 || k == |d| {
      WalkEnds(Honest(ids), remaining, offset, min, newest);
      if remaining > 0 { HonestPage(ids, min, k, Min(remaining, PAGE)); }
    } else {
      hide Walk, Pages;
      HonestPage(ids, min, k, Min(remaining, PAGE));
      var n := Min(Min(remaining, PAGE), |d| - k);
      WalkIsPages(ids, min, k + n, remaining - n, Max(newest, d[k]));
      WalkOnePage(Honest(ids), d, k, n, remaining, offset, min, newest);
    }
  }

  lemma WalkEnds(fetch: Fetch, remaining: int, offset: Id, min: Id, newest: Id)
    ensures remaining <= 0 || fetch(Min(remaining, PAGE), offset, min) == []
        ==> Walk(fetch, remaining, offset, min, newest) == []
  {
  }

  lemma PagesEnd(d: seq<Id>, remaining: int, newest: Id)
    ensures Pages(d, |d|, remaining, newest) == []
  {
  }

  // ---- What the writes store ----

  function Ids(writes: seq<Write>): seq<Id> {
    if writes == [] then []
    else Ids(writes[..|writes| - 1]) + (if writes[|writes| - 1].Ingest? then [writes[|writes| - 1].id] else [])
  }

  lemma {:induction false} PerformIngests(s: Stored, writes: seq<Write>)
    ensures Perform(s, writes).ingested == s.ingested + Ids(writes)
  {
    if writes != [] { PerformIngests(s, writes[..|writes| - 1]); }
  }

  lemma {:induction false} IdsConcat(a: seq<Write>, b: seq<Write>)
    ensures Ids(a + b) == Ids(a) + Ids(b)
  {
    if b == [] {
      assert a + b == a;
    } else {
      assert (a + b)[..|a + b| - 1] == a + b[..|b| - 1];
      IdsConcat(a, b[..|b| - 1]);
    }
  }

  lemma {:induction false} IdsOfPage(page: seq<Id>)
    ensures multiset(Ids(Ingests(page))) == multiset(page)
  {
    if page != [] {
      IdsOfPage(page[1..]);
      assert page == [page[0]] + page[1..];
      var rest := Ingests(page[1..]);
      assert (rest + [Ingest(page[0])])[..|rest|] == rest;
    }
  }

  lemma {:induction false} IngestsKeepMark(s: Stored, page: seq<Id>)
    ensures Perform(s, Ingests(page)).mark == s.mark
  {
    if page != [] {
      IngestsKeepMark(s, page[1..]);
      var rest := Ingests(page[1..]);
      assert (rest + [Ingest(page[0])])[..|rest|] == rest;
    }
  }

  function PageEnd(d: seq<Id>, full: nat, reach: nat): (r: nat)
    ensures r <= reach && (full <= reach ==> full <= r)
  {
    if full + PAGE < reach then full + PAGE else reach
  }

  predicate HoldsIds(d: seq<Id>, from: nat, full: nat, part: nat, end: nat, done: seq<Write>)
    requires from <= full <= |d| && part <= end <= |d|
  {
    multiset(Ids(done)) == multiset(d[from..full]) + multiset(d[end - part..end])
  }

  ghost predicate LeavesMark(done: seq<Write>, moved: bool, top: Id) {
    forall s :: Perform(s, done).mark == if moved then top else s.mark
  }

  predicate PageBoundary(full: int, k: int, reach: int) {
    full == reach || (full - k) % PAGE == 0
  }

  lemma NextBoundary(full: int, k: int, size: int, reach: int)
    requires PageBoundary(full, k + size, reach) && (size == PAGE || full == reach)
    ensures PageBoundary(full, k, reach)
  {
  }

  /** After `w` writes the pages up to `full` are done, and `part` messages, from the oldest, of
      the page after; the mark has moved exactly when a page is done. */
  ghost predicate StoppedAt(d: seq<Id>, k: nat, remaining: int, newest: Id, w: nat, full: nat, part: nat)
    requires k <= |d|
  {
    var reach, all := Reach(d, k, remaining), Pages(d, k, remaining, newest);
    && k <= full <= reach && PageBoundary(full, k, reach)
    && part <= PageEnd(d, full, reach) - full
    && HoldsIds(d, k, full, part, PageEnd(d, full, reach), Upto(all, w))
    && LeavesMark(Upto(all, w), full > k, if full > k then Max(newest, d[k]) else 0)
    && (full == reach <==> |all| <= w)
  }

  lemma PagesStep(d: seq<Id>, k: nat, remaining: int, newest: Id, size: nat)
    requires k < |d| && remaining > 0 && size == Min(Min(remaining, PAGE), |d| - k)
    ensures var page, top := d[k..k + size], Max(newest, d[k]);
      && |Ingests(page)| == size
      && Pages(d, k, remaining, newest) == Ingests(page) + [Mark(top)] + Pages(d, k + size, remaining - size, top)
  {
    IngestsLength(d[k..k + size]);
  }

  lemma PageIngests(d: seq<Id>, k: nat, size: nat, w: nat)
    requires k + size <= |d| && w <= size
    ensures var done := Ingests(d[k..k + size][size - w..]);
      && |Ingests(d[k..k + size])| == size && done == Ingests(d[k..k + size])[..w]
      && HoldsIds(d, k, k, w, k + size, done) && LeavesMark(done, false, 0)
  {
    var page := d[k..k + size];
    IngestsPrefix(page, size - w);
    assert page[size - w..] == d[k + size - w..k + size];
    assert d[k..k] == [];
    IdsOfPage(page[size - w..]);
    forall s ensures Perform(s, Ingests(page[size - w..])).mark == s.mark { IngestsKeepMark(s, page[size - w..]); }
  }

  lemma StoppedInPage(d: seq<Id>, k: nat, remaining: int, newest: Id, w: nat)
    requires NewestFirst(d) && k < |d| && remaining > 0 && w <= Min(Min(remaining, PAGE), |d| - k)
    ensures StoppedAt(d, k, remaining, newest, w, k, w)
  {
    hide Ingests, Ids, Perform, Pages, HoldsIds, LeavesMark, NewestFirst;
    var size := Min(Min(remaining, PAGE), |d| - k);
    PagesStep(d, k, remaining, newest, size);
    PageIngests(d, k, size, w);
    assert Upto(Pages(d, k, remaining, newest), w) == Ingests(d[k..k + size])[..w];
    assert PageEnd(d, k, Reach(d, k, remaining)) == k + size;
  }

  lemma {:induction false} CrashPoint(d: seq<Id>, k: nat, remaining: int, newest: Id, w: nat)
    returns (full: nat, part: nat)
    requires NewestFirst(d) && k <= |d|
    ensures StoppedAt(d, k, remaining, newest, w, full, part)
    decreases |d| - k
  {
    if remaining <= 0 || k == |d| {
      full, part := k, 0;
      assert d[k..k] == [] && Upto(Pages(d, k, remaining, newest), w) == [];
      return;
    }
    hide StoppedAt, NewestFirst;
    var size := Min(Min(remaining, PAGE), |d| - k);
    if w <= size {
      StoppedInPage(d, k, remaining, newest, w);
      full, part := k, w;
    } else {
      full, part := CrashPoint(d, k + size, remaining - size, Max(newest, d[k]), w - size - 1);
      StoppedLater(d, k, remaining, newest, w, size, full, part);
    }
  }

  lemma NextReach(d: seq<Id>, k: nat, remaining: int, size: nat)
    requires k < |d| && remaining > 0 && size == Min(Min(remaining, PAGE), |d| - k)
    ensures 0 < size && Reach(d, k + size, remaining - size) == Reach(d, k, remaining)
    ensures size == PAGE || k + size == Reach(d, k, remaining)
  {
  }

  /** Writes enough for the first page leave the rest for what comes after it. */
  lemma LaterWrites(d: seq<Id>, k: nat, remaining: int, newest: Id, size: nat, w: nat)
    requires k < |d| && remaining > 0 && size == Min(Min(remaining, PAGE), |d| - k) && size < w
    ensures var top := Max(newest, d[k]); var rest := Pages(d, k + size, remaining - size, top);
      && Upto(Pages(d, k, remaining, newest), w) == Ingests(d[k..k + size]) + [Mark(top)] + Upto(rest, w - size - 1)
      && (|Pages(d, k, remaining, newest)| <= w <==> |rest| <= w - size - 1)
  {
    hide Pages, Ingests, Upto;
    PagesStep(d, k, remaining, newest, size);
    var top := Max(newest, d[k]);
    UptoSplit(Ingests(d[k..k + size]) + [Mark(top)], Pages(d, k + size, remaining - size, top), w);
  }

  lemma StoppedLater(d: seq<Id>, k: nat, remaining: int, newest: Id, w: nat, size: nat, full: nat, part: nat)
    requires NewestFirst(d) && k < |d| && remaining > 0 && size == Min(Min(remaining, PAGE), |d| - k) && size < w
    requires StoppedAt(d, k + size, remaining - size, Max(newest, d[k]), w - size - 1, full, part)
    ensures StoppedAt(d, k, remaining, newest, w, full, part)
  {
    var top := Max(newest, d[k]);
    assert k + size < |d| ==> Max(top, d[k + size]) == top;
    NextReach(d, k, remaining, size);
    LaterWrites(d, k, remaining, newest, size, w);
    var reach := Reach(d, k, remaining);
    hide Ingests, Ids, Perform, Pages, HoldsIds, LeavesMark, NewestFirst, Upto, PageBoundary, Reach, PageEnd, Min, Max;
    var done := Upto(Pages(d, k + size, remaining - size, top), w - size - 1);
    NextBoundary(full, k, size, reach);
    PageThenIds(d, k, size, full, part, PageEnd(d, full, reach), top, done);
    PageThenMark(d[k..k + size], top, done, full > k + size, if full > k + size then Max(top, d[k + size]) else 0);
  }

  lemma PageThenIds(d: seq<Id>, k: nat, size: nat, full: nat, part: nat, end: nat, top: Id, done: seq<Write>)
    requires k + size <= full <= |d| && part <= end <= |d| && HoldsIds(d, k + size, full, part, end, done)
    ensures HoldsIds(d, k, full, part, end, Ingests(d[k..k + size]) + [Mark(top)] + done)
  {
    hide Ingests, Ids;
    var page := d[k..k + size];
    IdsConcat(Ingests(page) + [Mark(top)], done);
    IdsConcat(Ingests(page), [Mark(top)]);
    MarkHasNoId(top);
    IdsOfPage(page);
    assert d[k..full] == page + d[k + size..full];
  }

  lemma PageThenMark(page: seq<Id>, top: Id, done: seq<Write>, moved: bool, later: Id)
    requires LeavesMark(done, moved, later) && (moved ==> later == top)
    ensures LeavesMark(Ingests(page) + [Mark(top)] + done, true, top)
  {
    hide Ingests, Perform;
    forall s ensures Perform(s, Ingests(page) + [Mark(top)] + done).mark == top {
      PerformConcat(s, Ingests(page) + [Mark(top)], done);
      PerformMark(s, Ingests(page), top);
      assert Perform(Perform(s, Ingests(page) + [Mark(top)]), done).mark == top;
    }
  }

  lemma MarkHasNoId(id: Id)
    ensures Ids([Mark(id)]) == []
  {
    assert [Mark(id)][..0] == [];
  }
}
