/** When a damaged room is due to be walked again, over any runs since its last attempt. */
module HealDue {
  import opened Options
  import opened Timestamps
  import opened HistoryWalk
  import opened RoomIngest
  import opened HealSchedule
  import opened HealFairness

  const HOUR_MS := 3_600_000

  /** Any number of runs on one room. */
  function IngestedAll(db: RoomDb, runs: seq<Run>): RoomDb {
    if runs == [] then db else Ingested(IngestedAll(db, runs[..|runs| - 1]), runs[|runs| - 1])
  }

  predicate Ordinary(runs: seq<Run>) {
    forall i :: 0 <= i < |runs| ==> !runs[i].heal
  }

  function MetadataOf(db: RoomDb): Metadata {
    PersistedRoomState(db.conversation).metadata
  }

  /** Runs that do not heal keep the record of the last attempt. */
  lemma {:induction false} RecordOutlasts(db: RoomDb, runs: seq<Run>)
    requires Ordinary(runs)
    ensures LastAttemptMs(MetadataOf(IngestedAll(db, runs))) == LastAttemptMs(MetadataOf(db))
  {
    hide Ingested, LastAttemptMs, PersistedRoomState;
    if runs != [] {
      var mid, last := IngestedAll(db, runs[..|runs| - 1]), runs[|runs| - 1];
      RecordOutlasts(db, runs[..|runs| - 1]);
      SameRecord(mid, last);
    }
  }

  lemma SameRecord(db: RoomDb, run: Run)
    requires !run.heal
    ensures LastAttemptMs(MetadataOf(Ingested(db, run))) == LastAttemptMs(MetadataOf(db))
  {
    hide Ingested, Fetched, PersistedRoomState, IsoToUnixMs;
    HealRecordSurvives(db, run);
  }

  /** The cooldown is the hours set, up to what 64 bits hold. */
  lemma CooldownIs(cfg: Config)
    ensures CooldownMs(cfg) == if cfg.cooldownHours * HOUR_MS > U64_MAX then U64_MAX else cfg.cooldownHours * HOUR_MS
  {
  }

  /** Some damage is newer than that. */
  predicate DamageAfter(stats: Stats, ms: nat) {
    stats.latestEventTsMs.Some? && stats.latestEventTsMs.value > ms
  }

  /** However many ordinary runs came between: after an attempt that found something, a room is due again if
      and only if it shows damage and keys were just imported, or the cooldown is over, or some damage is
      newer than the attempt. The attempt counts from its whole second. */
  lemma DueAfterAttempt(cfg: Config, db: RoomDb, attempt: Run, since: seq<Run>, imported: bool, stats: Stats, now: nat)
    requires attempt.heal && Fetched(db, attempt).Ok? && Fetched(db, attempt).value != []
    requires 1000 <= attempt.nowMs < Y10K_MS && Ordinary(since)
    requires attempt.nowMs <= now && cfg.cooldownHours * HOUR_MS <= U64_MAX
    ensures var metadata, at := MetadataOf(IngestedAll(Ingested(db, attempt), since)), attempt.nowMs / 1000 * 1000;
      ShouldHeal(cfg, imported, metadata, stats, now) <==>
        stats.count > 0 && (imported || now - at >= cfg.cooldownHours * HOUR_MS || DamageAfter(stats, at))
  {
    hide Ingested, Fetched, LastAttemptMs, PersistedRoomState, CooldownMs;
    RecordAfterTurn(db, attempt);
    RecordOutlasts(Ingested(db, attempt), since);
    CooldownIs(cfg);
  }

  /** A room never walked again is due exactly if it shows damage. */
  lemma DueUnlessAttempted(cfg: Config, runs: seq<Run>, imported: bool, stats: Stats, now: nat)
    requires Ordinary(runs)
    ensures ShouldHeal(cfg, imported, MetadataOf(IngestedAll(RoomDb(None, map[]), runs)), stats, now)
      <==> stats.count > 0
  {
    hide LastAttemptMs, CooldownMs;
    RecordOutlasts(RoomDb(None, map[]), runs);
    NoRecord();
  }

  lemma NoRecord()
    ensures LastAttemptMs(MetadataOf(RoomDb(None, map[]))) == 0
  {
  }

  /** When the limit cuts, a room left out shows no damage newer than one taken does, nor more of it if both
      show the same time; a room whose damage has no time comes after all whose has. */
  lemma NewestDamageFirst(cfg: Config, survey: Survey, taken: RoomId, left: RoomId)
    requires Complete(survey) && !survey.imported
    requires taken in HealRooms(cfg, survey) && left in WantedRooms(cfg, survey) && left !in HealRooms(cfg, survey)
    ensures taken in survey.damage && left in survey.damage
    ensures var t, l := survey.damage[taken], survey.damage[left];
      && (l.latestEventTsMs.Some? ==>
            t.latestEventTsMs.Some? && l.latestEventTsMs.value <= t.latestEventTsMs.value)
      && (l.latestEventTsMs == t.latestEventTsMs ==> l.count <= t.count)
  {
    hide HealRooms, WantedRooms, Complete;
    MostUrgentFirst(cfg, survey, taken, left);
  }
}
