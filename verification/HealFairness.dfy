/** Over several runs inside one cooldown, every damaged room gets its turn, once. */
module HealFairness {
  import opened Options
  import opened Timestamps
  import opened HistoryWalk
  import opened RoomIngest
  import opened HealSchedule

  /** One ordinary (non-import) run: what it surveys and what each room's turn is given. */
  datatype Pass = Pass(rooms: seq<RoomId>, damage: map<RoomId, Stats>, nowMs: nat, runs: map<RoomId, Run>)

  type States = map<RoomId, RoomDb>

  ghost predicate Covers(states: States, pass: Pass) {
    && Complete(Survey(false, pass.rooms, states, pass.damage, pass.nowMs))
    && states.Keys <= pass.runs.Keys
    && states.Keys <= pass.damage.Keys
  }

  lemma CoversByKeys(a: States, b: States, pass: Pass)
    requires a.Keys == b.Keys && Covers(a, pass)
    ensures Covers(b, pass)
  {
  }

  function SurveyOf(states: States, pass: Pass): Survey {
    Survey(false, pass.rooms, states, pass.damage, pass.nowMs)
  }

  ghost function Picked(cfg: Config, states: States, pass: Pass): set<RoomId>
    requires Covers(states, pass)
  {
    HealRooms(cfg, SurveyOf(states, pass))
  }

  ghost function RunOf(cfg: Config, states: States, pass: Pass, room: RoomId): Run
    requires Covers(states, pass) && room in states
  {
    pass.runs[room].(heal := room in Picked(cfg, states, pass))
  }

  ghost function After(cfg: Config, states: States, pass: Pass): (after: States)
    requires Covers(states, pass)
    ensures after.Keys == states.Keys
  {
    map room | room in states :: Ingested(states[room], RunOf(cfg, states, pass, room))
  }

  // ---- A series of passes ----

  datatype Series = Series(cfg: Config, start: States, passes: seq<Pass>) {

    ghost predicate Valid() {
      forall j :: 0 <= j < |passes| ==> Covers(start, passes[j])
    }

    ghost function At(j: nat): (states: States)
      requires Valid() && j <= |passes|
      ensures states.Keys == start.Keys
      ensures j < |passes| ==> Covers(states, passes[j])
    {
      var states := if j == 0 then start else After(cfg, At(j - 1), passes[j - 1]);
      assert j < |passes| ==> Covers(states, passes[j]) by {
        if j < |passes| { CoversByKeys(start, states, passes[j]); }
      }
      states
    }

    ghost function PickedAt(j: nat): set<RoomId>
      requires Valid() && j < |passes|
    {
      Picked(cfg, At(j), passes[j])
    }

    /** The rooms attempted in the first `j` passes. */
    ghost function Tried(j: nat): set<RoomId>
      requires Valid() && j <= |passes|
    {
      if j == 0 then {} else Tried(j - 1) + PickedAt(j - 1)
    }

    ghost function Damaged(j: nat): set<RoomId>
      requires Valid() && j < |passes|
    {
      set room | room in start && DamageAt(j, room).count > 0
    }

    ghost function DamageAt(j: nat, room: RoomId): Stats
      requires Valid() && j < |passes| && room in start
    {
      assert Covers(start, passes[j]);
      passes[j].damage[room]
    }

    ghost function AttemptAt(j: nat, room: RoomId): nat
      requires Valid() && j < |passes| && room in start
    {
      assert Covers(start, passes[j]);
      passes[j].runs[room].nowMs
    }

    ghost function RecordAt(j: nat, room: RoomId): nat
      requires Valid() && j <= |passes| && room in start
    {
      LastAttemptMs(PersistedRoomState(At(j)[room].conversation).metadata)
    }

    /** Every re-walk attempted finds something. */
    ghost predicate WalksSucceed()
      requires Valid()
    {
      forall j, room :: 0 <= j < |passes| && room in start && room in PickedAt(j) ==>
        var found := Fetched(At(j)[room], RunOf(cfg, At(j), passes[j], room));
        found.Ok? && found.value != []
    }

    /** The clock runs forward, from after the first second of 1970 to before the year 10000,
        and no pass comes a whole cooldown after an earlier pass's attempts. */
    ghost predicate OneCooldown()
      requires Valid()
    {
      && (forall j, room :: 0 <= j < |passes| && room in start ==> 1000 <= AttemptAt(j, room) < Y10K_MS)
      && (forall i, j, room :: 0 <= i < j < |passes| && room in start ==>
            AttemptAt(i, room) <= passes[j].nowMs < WholeSecond(AttemptAt(i, room)) + CooldownMs(cfg))
      && (forall i, j :: 0 <= i < j < |passes| ==> passes[i].nowMs <= passes[j].nowMs)
    }

    /** No damage appears, and none that is newer than an attempt already made. */
    ghost predicate NoNewDamage()
      requires Valid()
    {
      && (forall j :: 0 < j < |passes| ==> Damaged(j) <= Damaged(j - 1))
      && (forall i, j, room :: 0 <= i < j < |passes| && room in start && room in PickedAt(i) ==>
            DamageAt(j, room).latestEventTsMs.GetOr(0) <= WholeSecond(AttemptAt(i, room)))
    }

    /** At the start every room's last attempt, if any, is a whole cooldown ago. */
    ghost predicate StartsDue()
      requires Valid()
    {
      passes != [] ==> forall room :: room in start ==>
        RecordAt(0, room) == 0 || RecordAt(0, room) + CooldownMs(cfg) <= passes[0].nowMs
    }

    ghost predicate Quiet() {
      Valid() && WalksSucceed() && OneCooldown() && NoNewDamage() && StartsDue()
    }
  }

  /** One room's turn in one pass, as far as its attempt record goes. */
  lemma RecordAfterTurn(db: RoomDb, run: Run)
    requires run.nowMs < Y10K_MS
    requires run.heal ==> Fetched(db, run).Ok? && Fetched(db, run).value != []
    ensures LastAttemptMs(PersistedRoomState(Ingested(db, run).conversation).metadata) ==
      if run.heal then WholeSecond(run.nowMs) else LastAttemptMs(PersistedRoomState(db.conversation).metadata)
  {
    hide Ingested, Fetched, IsoToUnixMs, IsoNow, WholeSecond, PersistedRoomState;
    HealRecordSurvives(db, run);
    CheckpointRoundTrip(run.nowMs);
  }

  lemma RecordStep(s: Series, j: nat, room: RoomId)
    requires s.Valid() && s.WalksSucceed() && j < |s.passes| && room in s.start
    requires s.AttemptAt(j, room) < Y10K_MS
    ensures s.RecordAt(j + 1, room) ==
      if room in s.PickedAt(j) then WholeSecond(s.AttemptAt(j, room)) else s.RecordAt(j, room)
  {
    hide Ingested, Fetched, LastAttemptMs, HealRooms, Complete, WholeSecond, PersistedRoomState;
    var states := s.At(j);
    assert s.At(j + 1) == After(s.cfg, states, s.passes[j]);
    RecordAfterTurn(states[room], RunOf(s.cfg, states, s.passes[j], room));
  }

  /** The record of a room tried is its attempt's time; any other room's is as at the start. */
  lemma {:induction false} RecordKnown(s: Series, j: nat, room: RoomId) returns (i: nat)
    requires s.Quiet() && j <= |s.passes| && room in s.start
    ensures room in s.Tried(j)
        ==> i < j && room in s.PickedAt(i) && s.RecordAt(j, room) == WholeSecond(s.AttemptAt(i, room))
    ensures room !in s.Tried(j) ==> s.RecordAt(j, room) == s.RecordAt(0, room)
    decreases j
  {
    hide Covers, Series.At, Series.RecordAt, Series.PickedAt;
    hide Series.AttemptAt, Series.WalksSucceed, Series.NoNewDamage, Series.StartsDue, WholeSecond;
    i := 0;
    if j > 0 {
      RecordStep(s, j - 1, room);
      i := RecordKnown(s, j - 1, room);
      if room in s.PickedAt(j - 1) { i := j - 1; }
    }
  }

  /** Once attempted, a room is not due again before the cooldown ends, unless newer damage shows. */
  lemma NotDueAgain(cfg: Config, metadata: Metadata, stats: Stats, nowMs: nat, attemptMs: nat)
    requires LastAttemptMs(metadata) == WholeSecond(attemptMs)
        && 1000 <= attemptMs <= nowMs < WholeSecond(attemptMs) + CooldownMs(cfg)
    requires stats.latestEventTsMs.GetOr(0) <= WholeSecond(attemptMs)
    ensures !ShouldHeal(cfg, false, metadata, stats, nowMs)
  {
    hide LastAttemptMs, CooldownMs;
  }

  lemma StillDue(cfg: Config, metadata: Metadata, stats: Stats, startMs: nat, nowMs: nat)
    requires LastAttemptMs(metadata) == 0 || LastAttemptMs(metadata) + CooldownMs(cfg) <= startMs <= nowMs
    ensures ShouldHeal(cfg, false, metadata, stats, nowMs) <==> stats.count > 0
  {
    hide LastAttemptMs, CooldownMs;
  }

  /** A room is wanted exactly while it is damaged and not yet tried. */
  lemma WantedWhileUntried(s: Series, j: nat, room: RoomId)
    requires s.Quiet() && j < |s.passes| && room in s.start
    ensures Wants(s.cfg, SurveyOf(s.At(j), s.passes[j]), room) <==> room in s.Damaged(j) && room !in s.Tried(j)
  {
    hide LastAttemptMs, CooldownMs, ShouldHeal, Complete, Series.At;
    hide Series.Tried, Series.PickedAt, Series.WalksSucceed, WholeSecond, PersistedRoomState;
    var i := RecordKnown(s, j, room);
    var metadata := PersistedRoomState(s.At(j)[room].conversation).metadata;
    var stats := s.passes[j].damage[room];
    assert stats == s.DamageAt(j, room);
    if room in s.Tried(j) {
      NotDueAgain(s.cfg, metadata, stats, s.passes[j].nowMs, s.AttemptAt(i, room));
    } else {
      ClockForward(s, j);
      StillDue(s.cfg, metadata, stats, s.passes[0].nowMs, s.passes[j].nowMs);
    }
  }

  lemma ClockForward(s: Series, j: nat)
    requires s.Valid() && s.OneCooldown() && j < |s.passes|
    ensures s.passes[0].nowMs <= s.passes[j].nowMs
  {
  }

  ghost function Pending(s: Series, j: nat): set<RoomId>
    requires s.Valid() && j < |s.passes|
  {
    s.Damaged(j) - s.Tried(j)
  }

  /** A pass picks among the pending rooms: all of them if they fit, or as many as the limit. */
  lemma PassPicksPending(s: Series, j: nat)
    requires s.Quiet() && j < |s.passes|
    ensures s.PickedAt(j) <= Pending(s, j)
    ensures |Pending(s, j)| <= s.cfg.roomLimit ==> s.PickedAt(j) == Pending(s, j)
    ensures |Pending(s, j)| > s.cfg.roomLimit ==> |s.PickedAt(j)| == s.cfg.roomLimit
  {
    hide Wants, HealRooms, Complete, Series.At;
    hide Series.Tried, Series.OneCooldown, Series.NoNewDamage, Series.WalksSucceed;
    var survey := SurveyOf(s.At(j), s.passes[j]);
    ChoiceIsWanted(s.cfg, survey);
    forall room | room in s.start
      ensures Wants(s.cfg, survey, room) <==> room in Pending(s, j)
    {
      WantedWhileUntried(s, j, room);
    }
    assert WantedRooms(s.cfg, survey) == Pending(s, j);
  }

  lemma {:induction false} TriedGrows(s: Series, i: nat, j: nat)
    requires s.Valid() && i < j <= |s.passes|
    ensures s.PickedAt(i) <= s.Tried(j)
    decreases j
  {
    hide Covers, Series.At, Series.PickedAt;
    if i < j - 1 { TriedGrows(s, i, j - 1); }
  }

  lemma PendingStep(s: Series, j: nat)
    requires s.Valid() && s.NoNewDamage() && 0 < j < |s.passes|
    requires s.PickedAt(j - 1) <= Pending(s, j - 1)
    ensures |Pending(s, j)| <= |Pending(s, j - 1)| - |s.PickedAt(j - 1)|
  {
    hide Covers, Series.At, Series.PickedAt;
    var before, picked := Pending(s, j - 1), s.PickedAt(j - 1);
    assert s.Damaged(j) <= s.Damaged(j - 1);
    assert Pending(s, j) <= before - picked;
    Smaller(Pending(s, j), before - picked);
    Smaller(picked, before);
    assert |before - picked| == |before| - |picked|;
  }

  /** One more full limit off the total. */
  lemma BudgetStep(left: nat, before: nat, picked: nat, limit: nat, j: nat, total: nat)
    requires j > 0 && left <= before - picked && picked == limit && before + limit * (j - 1) <= total
    ensures left + limit * j <= total
  {
    assert limit * j == limit * (j - 1) + limit;
  }

  /** What is left after all but one run fits in the last. */
  lemma BudgetEnd(left: nat, limit: nat, k: nat, total: nat)
    requires k > 0 && left + limit * (k - 1) <= total <= limit * k
    ensures left <= limit
  {
    assert limit * k == limit * (k - 1) + limit;
  }

  lemma {:induction false} PendingShrinks(s: Series, j: nat)
    requires s.Quiet() && j < |s.passes|
    ensures Pending(s, j) == {} || |Pending(s, j)| + s.cfg.roomLimit * j <= |s.Damaged(0)|
    decreases j
  {
    hide Covers, Series.At, Series.PickedAt, Series.Damaged, Series.NoNewDamage;
    hide Series.OneCooldown, Series.WalksSucceed, Series.StartsDue;
    if j > 0 {
      hide Pending, Series.Tried;
      PendingShrinks(s, j - 1);
      PassPicksPending(s, j - 1);
      PendingStep(s, j);
      if Pending(s, j) != {} {
        BudgetStep(|Pending(s, j)|, |Pending(s, j - 1)|, |s.PickedAt(j - 1)|, s.cfg.roomLimit, j, |s.Damaged(0)|);
      }
    }
  }

  lemma {:induction false} Smaller(a: set<RoomId>, b: set<RoomId>)
    requires a <= b
    ensures |a| <= |b|
  {
    assert |b - a| == |b| - |a|;
  }

  lemma NeverTwice(s: Series, i: nat, j: nat)
    requires s.Quiet() && i < j < |s.passes|
    ensures s.PickedAt(i) !! s.PickedAt(j)
  {
    PassPicksPending(s, j);
    TriedGrows(s, i, j);
    hide Covers, Series.At, Series.PickedAt, Series.Tried, Series.Damaged;
    hide Series.OneCooldown, Series.WalksSucceed, Series.NoNewDamage, Series.StartsDue;
  }

  lemma AllTried(s: Series)
    requires s.Quiet() && s.passes != [] && |s.Damaged(0)| <= s.cfg.roomLimit * |s.passes|
    ensures s.Damaged(|s.passes| - 1) <= s.Tried(|s.passes|)
  {
    hide Covers, Series.At, Series.PickedAt, Series.Damaged, Series.NoNewDamage;
    hide Series.OneCooldown, Series.WalksSucceed, Series.StartsDue;
    var k := |s.passes|;
    PendingShrinks(s, k - 1);
    PassPicksPending(s, k - 1);
    TriedStep(s, k);
    if Pending(s, k - 1) != {} { BudgetEnd(|Pending(s, k - 1)|, s.cfg.roomLimit, k, |s.Damaged(0)|); }
    hide Series.Tried;
    LastPassTries(s.Damaged(k - 1), s.Tried(k - 1), s.PickedAt(k - 1));
  }

  lemma TriedStep(s: Series, j: nat)
    requires s.Valid() && 0 < j <= |s.passes|
    ensures s.Tried(j) == s.Tried(j - 1) + s.PickedAt(j - 1)
  {
    hide Covers, Series.At, Series.PickedAt;
  }

  lemma LastPassTries(damaged: set<RoomId>, tried: set<RoomId>, picked: set<RoomId>)
    requires damaged - tried <= picked
    ensures damaged <= tried + picked
  {
  }

  /** Fair healing: no run attempts more rooms than the limit, no room is attempted twice inside
      the cooldown, and when the damaged rooms number at most the limit times the number of
      runs, every room still damaged at the last run has been attempted, in exactly one run. */
  lemma EveryRoomHealedOnce(s: Series)
    requires s.Quiet() && s.passes != []
    ensures forall j :: 0 <= j < |s.passes| ==> |s.PickedAt(j)| <= s.cfg.roomLimit
    ensures forall i, j :: 0 <= i < j < |s.passes| ==> s.PickedAt(i) !! s.PickedAt(j)
    ensures |s.Damaged(0)| <= s.cfg.roomLimit * |s.passes| ==> s.Damaged(|s.passes| - 1) <= s.Tried(|s.passes|)
  {
    hide Covers, Series.At, Series.PickedAt, Series.Tried, Series.Damaged, Series.DamageAt;
    hide Series.OneCooldown, Series.WalksSucceed, Series.NoNewDamage, Series.StartsDue, Pending;
    var k := |s.passes|;
    forall j | 0 <= j < k ensures |s.PickedAt(j)| <= s.cfg.roomLimit {
      PassPicksPending(s, j);
    }
    forall i, j | 0 <= i < j < k ensures s.PickedAt(i) !! s.PickedAt(j) {
      NeverTwice(s, i, j);
    }
    if |s.Damaged(0)| <= s.cfg.roomLimit * k { AllTried(s); }
  }
}
