/** Choosing which rooms to walk again from the start because they hold undecrypted events. */
module HealSchedule {
  import opened Options
  import opened Timestamps
  import opened RoomIngest
  import opened HistoryWalk
  import StableSort

  const U64_MAX: nat := 0xFFFF_FFFF_FFFF_FFFF

  type RoomId = string

  datatype Config = Config(roomLimit: nat, cooldownHours: nat)

  datatype Stats = Stats(count: int, latestEventTsMs: Option<nat>)

  datatype Candidate = Candidate(room: RoomId, stats: Stats)

  function SaturatingMul(a: nat, b: nat): nat {
    if a * b > U64_MAX then U64_MAX else a * b
  }

  function CooldownMs(cfg: Config): nat {
    SaturatingMul(SaturatingMul(SaturatingMul(cfg.cooldownHours, 60), 60), 1000)
  }

  /** When the record says the last attempt was; zero if there is no readable record. */
  function LastAttemptMs(metadata: Metadata): nat {
    if HEAL_KEY in metadata && metadata[HEAL_KEY].HealAttempt? then IsoToUnixMs(metadata[HEAL_KEY].attemptedAt) else 0
  }

  predicate ShouldHeal(cfg: Config, imported: bool, metadata: Metadata, stats: Stats, nowMs: nat) {
    var last := LastAttemptMs(metadata);
    && stats.count > 0
    && (|| imported
        || last == 0
        || (if nowMs < last then 0 else nowMs - last) >= CooldownMs(cfg)
        || (stats.latestEventTsMs.Some? && stats.latestEventTsMs.value > last))
  }

  /** Newest damage first, then most damage. */
  predicate MoreUrgent(a: Candidate, b: Candidate) {
    || LaterThan(a.stats.latestEventTsMs, b.stats.latestEventTsMs)
    || (a.stats.latestEventTsMs == b.stats.latestEventTsMs && a.stats.count > b.stats.count)
  }

  predicate LaterThan(a: Option<nat>, b: Option<nat>) {
    a.Some? && (b.None? || a.value > b.value)
  }

  // ---- One run's choice ----

  /** What a run sees: the joined rooms in order, each one's state and damage, and the clock. */
  datatype Survey = Survey(
    imported: bool,
    rooms: seq<RoomId>,
    states: map<RoomId,
    RoomDb>,
    damage: map<RoomId,
    Stats>,
    nowMs: nat)

  predicate Wants(cfg: Config, survey: Survey, room: RoomId)
    requires room in survey.states && room in survey.damage
  {
    var metadata := PersistedRoomState(survey.states[room].conversation).metadata;
    ShouldHeal(cfg, survey.imported, metadata, survey.damage[room], survey.nowMs)
  }

  predicate Complete(survey: Survey) {
    && (forall i :: 0 <= i < |survey.rooms| ==> survey.rooms[i] in survey.states && survey.rooms[i] in survey.damage)
    && (forall i, j :: 0 <= i < j < |survey.rooms| ==> survey.rooms[i] != survey.rooms[j])
    && (forall room :: room in survey.states ==> room in survey.rooms)
  }

  function Candidates(cfg: Config, survey: Survey, n: nat): (found: seq<Candidate>)
    requires Complete(survey) && n <= |survey.rooms|
  {
    if n == 0 then [] else
      var room := survey.rooms[n - 1];
      Candidates(cfg, survey, n - 1) + if Wants(cfg, survey, room) then [Candidate(room, survey.damage[room])] else []
  }

  /** After a key import every candidate is walked again; otherwise the most urgent few. */
  function Chosen(cfg: Config, survey: Survey): seq<Candidate>
    requires Complete(survey)
  {
    var ranked := StableSort.Sort(MoreUrgent, Candidates(cfg, survey, |survey.rooms|));
    if survey.imported || |ranked| <= cfg.roomLimit then ranked else ranked[..cfg.roomLimit]
  }

  function HealRooms(cfg: Config, survey: Survey): set<RoomId>
    requires Complete(survey)
  {
    RoomsOf(Chosen(cfg, survey))
  }

  function RoomsOf(candidates: seq<Candidate>): set<RoomId> {
    set i | 0 <= i < |candidates| :: candidates[i].room
  }

  method SelectHealRooms(cfg: Config, survey: Survey) returns (healRoomIds: set<RoomId>)
    requires Complete(survey)
    ensures healRoomIds == HealRooms(cfg, survey)
  {
    hide ShouldHeal;
    var candidates: seq<Candidate> := [];
    for i := 0 to |survey.rooms|
      invariant candidates == Candidates(cfg, survey, i)
    {
      var room := survey.rooms[i];
      var stats := survey.damage[room];
      var metadata := PersistedRoomState(survey.states[room].conversation).metadata;
      if ShouldHeal(cfg, survey.imported, metadata, stats, survey.nowMs) {
        candidates := candidates + [Candidate(room, stats)];
      }
    }
    var ranked := StableSort.Sort(MoreUrgent, candidates);
    var chosen := if survey.imported || |ranked| <= cfg.roomLimit then ranked else ranked[..cfg.roomLimit];
    healRoomIds := RoomsOf(chosen);
  }

  // ---- What the choice amounts to ----

  function WantedRooms(cfg: Config, survey: Survey): set<RoomId>
    requires Complete(survey)
  {
    set room | room in survey.states && Wants(cfg, survey, room)
  }

  predicate DistinctRooms(candidates: seq<Candidate>) {
    forall i, j :: 0 <= i < j < |candidates| ==> candidates[i].room != candidates[j].room
  }

  predicate Faithful(cfg: Config, survey: Survey, rooms: seq<RoomId>, c: Candidate)
    requires Complete(survey)
  {
    c.room in rooms && c.room in survey.states && c.room in survey.damage
    && Wants(cfg, survey, c.room) && c.stats == survey.damage[c.room]
  }

  lemma {:induction false} CandidatesFaithful(cfg: Config, survey: Survey, n: nat, c: Candidate)
    requires Complete(survey) && n <= |survey.rooms|
    requires c in Candidates(cfg, survey, n)
    ensures Faithful(cfg, survey, survey.rooms[..n], c)
  {
    hide Wants, ShouldHeal, RoomIngest.PersistedRoomState;
    if n > 0 {
      assert survey.rooms[..n] == survey.rooms[..n - 1] + [survey.rooms[n - 1]];
      if c in Candidates(cfg, survey, n - 1) { CandidatesFaithful(cfg, survey, n - 1, c); }
    }
  }

  lemma {:induction false} CandidatesAreWanted(cfg: Config, survey: Survey, n: nat)
    requires Complete(survey) && n <= |survey.rooms|
    ensures var found := Candidates(cfg, survey, n);
      && DistinctRooms(found)
      && (forall c :: c in found ==> Faithful(cfg, survey, survey.rooms[..n], c))
      && (forall i :: 0 <= i < n && Wants(cfg, survey, survey.rooms[i])
            ==> Candidate(survey.rooms[i], survey.damage[survey.rooms[i]]) in found)
  {
    hide Wants, ShouldHeal, RoomIngest.PersistedRoomState;
    forall c | c in Candidates(cfg, survey, n) ensures Faithful(cfg, survey, survey.rooms[..n], c) {
      CandidatesFaithful(cfg, survey, n, c);
    }
    if n > 0 {
      CandidatesAreWanted(cfg, survey, n - 1);
      var before := Candidates(cfg, survey, n - 1);
      forall i | 0 <= i < |before| ensures before[i].room != survey.rooms[n - 1] {
        assert before[i] in before && Faithful(cfg, survey, survey.rooms[..n - 1], before[i]);
      }
    }
  }

  /** A sequence of rooms without repeats has as many rooms as entries. */
  lemma {:induction false} DistinctCount(candidates: seq<Candidate>)
    requires DistinctRooms(candidates)
    ensures |RoomsOf(candidates)| == |candidates|
  {
    var all := RoomsOf(candidates);
    if candidates != [] {
      var init, last := candidates[..|candidates| - 1], candidates[|candidates| - 1].room;
      var rest := RoomsOf(init);
      DistinctCount(init);
      assert last !in rest;
      forall room ensures room in all <==> room in rest + {last} {
        if room in rest {
          var i :| 0 <= i < |init| && init[i].room == room;
          assert candidates[i].room == room;
        }
        if room in all {
          var i :| 0 <= i < |candidates| && candidates[i].room == room;
          if i < |init| { assert init[i].room == room; }
        }
      }
      assert all == rest + {last};
    }
  }

  lemma {:induction false} PermutedDistinct(a: seq<Candidate>, b: seq<Candidate>)
    requires DistinctRooms(a) && multiset(a) == multiset(b)
    ensures DistinctRooms(b)
  {
    forall i, j | 0 <= i < j < |b| ensures b[i].room != b[j].room {
      if b[i].room == b[j].room {
        assert b[i] in multiset(a) && b[j] in multiset(a);
        var x :| 0 <= x < |a| && a[x] == b[i];
        var y :| 0 <= y < |a| && a[y] == b[j];
        assert x == y;
        Occurs(b, i, j);
        OccursOnce(a, x);
      }
    }
  }

  lemma Occurs(s: seq<Candidate>, i: nat, j: nat)
    requires i < j < |s| && s[i] == s[j]
    ensures multiset(s)[s[i]] >= 2
  {
    assert s == s[..j] + [s[j]] + s[j + 1..];
    assert s[..j][i] == s[i];
    assert s[i] in s[..j];
  }

  lemma OccursOnce(s: seq<Candidate>, i: nat)
    requires DistinctRooms(s) && i < |s|
    ensures multiset(s)[s[i]] == 1
  {
    assert s == s[..i] + [s[i]] + s[i + 1..];
    assert s[i] !in s[..i] && s[i] !in s[i + 1..];
  }

  /** Any rearrangement of the candidates holds the wanted rooms. */
  lemma WantedIn(cfg: Config, survey: Survey, ranked: seq<Candidate>)
    requires Complete(survey)
    requires forall c :: c in ranked <==> c in Candidates(cfg, survey, |survey.rooms|)
    ensures RoomsOf(ranked) == WantedRooms(cfg, survey)
    ensures forall i :: 0 <= i < |ranked| ==> Faithful(cfg, survey, survey.rooms, ranked[i])
  {
    hide Wants, ShouldHeal, Candidates;
    CandidatesAreWanted(cfg, survey, |survey.rooms|);
    assert survey.rooms[..|survey.rooms|] == survey.rooms;
    forall i | 0 <= i < |ranked| ensures Faithful(cfg, survey, survey.rooms, ranked[i]) {
      assert ranked[i] in ranked;
    }
    forall room | room in WantedRooms(cfg, survey) ensures room in RoomsOf(ranked) {
      var i :| 0 <= i < |survey.rooms| && survey.rooms[i] == room;
      var c := Candidate(room, survey.damage[room]);
      assert c in ranked;
      var k :| 0 <= k < |ranked| && ranked[k] == c;
    }
    forall room | room in RoomsOf(ranked) ensures room in WantedRooms(cfg, survey) {
      var k :| 0 <= k < |ranked| && ranked[k].room == room;
    }
  }

  /** Ranking loses no candidate and repeats none. */
  lemma RankedRooms(cfg: Config, survey: Survey)
    requires Complete(survey)
    ensures var ranked := StableSort.Sort(MoreUrgent, Candidates(cfg, survey, |survey.rooms|));
      && DistinctRooms(ranked) && RoomsOf(ranked) == WantedRooms(cfg, survey)
      && forall i :: 0 <= i < |ranked| ==> Faithful(cfg, survey, survey.rooms, ranked[i])
  {
    hide Wants, Candidates, WantedRooms, RoomsOf, Faithful;
    var found := Candidates(cfg, survey, |survey.rooms|);
    CandidatesAreWanted(cfg, survey, |survey.rooms|);
    StableSort.SortMembers(MoreUrgent, found);
    PermutedDistinct(found, StableSort.Sort(MoreUrgent, found));
    WantedIn(cfg, survey, StableSort.Sort(MoreUrgent, found));
  }

  /** The rooms chosen are wanted ones: all of them after an import or when they fit under the
      limit, and otherwise exactly as many as the limit allows. */
  lemma ChoiceIsWanted(cfg: Config, survey: Survey)
    requires Complete(survey)
    ensures var chosen, wanted := HealRooms(cfg, survey), WantedRooms(cfg, survey);
      && chosen <= wanted
      && (if survey.imported || |wanted| <= cfg.roomLimit then chosen == wanted else |chosen| == cfg.roomLimit)
  {
    hide Wants, Candidates, WantedRooms;
    RankedRooms(cfg, survey);
    var ranked := StableSort.Sort(MoreUrgent, Candidates(cfg, survey, |survey.rooms|));
    var chosen := Chosen(cfg, survey);
    DistinctCount(ranked);
    DistinctCount(chosen);
    forall room | room in RoomsOf(chosen) ensures room in RoomsOf(ranked) {
      var i :| 0 <= i < |chosen| && chosen[i].room == room;
      assert ranked[i].room == room;
    }
  }

  /** When the limit cuts, no room left out is more urgent than one taken. */
  lemma MostUrgentFirst(cfg: Config, survey: Survey, taken: RoomId, left: RoomId)
    requires Complete(survey) && !survey.imported
    requires taken in HealRooms(cfg, survey) && left in WantedRooms(cfg, survey) && left !in HealRooms(cfg, survey)
    ensures taken in survey.damage && left in survey.damage
    ensures !MoreUrgent(Candidate(left, survey.damage[left]), Candidate(taken, survey.damage[taken]))
  {
    hide Wants, Candidates, WantedRooms, RoomsOf, StableSort.Sort;
    RankedRooms(cfg, survey);
    var found := Candidates(cfg, survey, |survey.rooms|);
    var ranked := StableSort.Sort(MoreUrgent, found);
    var chosen := Chosen(cfg, survey);
    StableSort.SortOrdered(MoreUrgent, (c: Candidate) => true, found);
    var t := PlaceOf(taken, chosen);
    var l := PlaceOf(left, ranked);
    if l < |chosen| { InPlace(left, chosen, l); }
    assert Faithful(cfg, survey, survey.rooms, ranked[t]) && Faithful(cfg, survey, survey.rooms, ranked[l]);
  }

  lemma PlaceOf(room: RoomId, candidates: seq<Candidate>) returns (i: nat)
    requires room in RoomsOf(candidates)
    ensures i < |candidates| && candidates[i].room == room
  {
    i :| 0 <= i < |candidates| && candidates[i].room == room;
  }

  lemma InPlace(room: RoomId, candidates: seq<Candidate>, i: nat)
    requires i < |candidates| && candidates[i].room == room
    ensures room in RoomsOf(candidates)
  {
  }
}
