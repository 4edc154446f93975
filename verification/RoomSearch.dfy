/** Finding the room that replaces a stale one, by the bridge it belongs to. */
module RoomSearch {
  import opened Options

  type RoomId = string

  datatype BridgeTarget = BridgeTarget(
    stateKey: string,
    protocolId: Option<string>,
    channelId: Option<string>,
    displayName: Option<string>)

  /** The parts of a bridge event's content that are read. */
  datatype Content = Content(protocolId: Option<string>, channelId: Option<string>, displayName: Option<string>)

  datatype StateEvent = StateEvent(eventType: Option<string>, stateKey: Option<string>, content: Content)

  const BRIDGE := "m.bridge"
  const HALF_SHOT := "uk.half-shot.bridge"
  const CONCURRENCY := 32

  function ExtractBridgeTargets(states: seq<StateEvent>): seq<BridgeTarget> {
    if states == [] then [] else
    var last := states[|states| - 1];
    ExtractBridgeTargets(states[..|states| - 1]) +
    if (last.eventType == Some(BRIDGE) || last.eventType == Some(HALF_SHOT)) && last.stateKey.Some?
    then [BridgeTarget(last.stateKey.value, last.content.protocolId, last.content.channelId, last.content.displayName)]
    else []
  }

  /** The event is a bridge's, of either type, and has a key. */
  predicate OfBridge(e: StateEvent) {
    e.eventType in {Some("m.bridge"), Some("uk.half-shot.bridge")} && e.stateKey.Some?
  }

  predicate Names(e: StateEvent, t: BridgeTarget) {
    OfBridge(e)
    && t == BridgeTarget(e.stateKey.value, e.content.protocolId, e.content.channelId, e.content.displayName)
  }

  /** A room's targets are its bridge events, each with its key, protocol, channel and name. */
  lemma {:induction false} TargetsAreBridges(states: seq<StateEvent>, t: BridgeTarget)
    ensures t in ExtractBridgeTargets(states) <==> exists i :: 0 <= i < |states| && Names(states[i], t)
  {
    if states != [] {
      var init, last := states[..|states| - 1], states[|states| - 1];
      TargetsAreBridges(init, t);
      assert forall i :: 0 <= i < |init| ==> init[i] == states[i];
      assert last == states[|states| - 1];
      assert Names(last, t) ==> Names(states[|states| - 1], t);
    }
  }

  predicate BridgeTargetsMatch(left: BridgeTarget, right: BridgeTarget) {
    || (left.stateKey != "" && right.stateKey != "" && left.stateKey == right.stateKey)
    || (left.protocolId.Some? && left.protocolId == right.protocolId && left.channelId.Some?
          && left.channelId == right.channelId)
  }

  // ---- Asking one room ----

  datatype Reply = Absent | Present(content: Content) | Failed

  /** The answers of the homeserver, fixed while the search lasts: by room, event type, state key. */
  type Rooms = (RoomId, string, string) -> Reply

  datatype Outcome = Found(room: RoomId, name: Option<string>) | NotFound | Error

  predicate AnyMatch(candidates: seq<BridgeTarget>, target: BridgeTarget) {
    exists i :: 0 <= i < |candidates| && BridgeTargetsMatch(candidates[i], target)
  }

  function Probe(rooms: Rooms, room: RoomId, eventType: string, target: BridgeTarget): Outcome {
    match rooms(room, eventType, target.stateKey)
    case Failed => Error
    case Absent => NotFound
    case Present(content) =>
      if AnyMatch(ExtractBridgeTargets([StateEvent(Some(eventType), Some(target.stateKey), content)]), target)
      then Found(room, target.displayName) else NotFound
  }

  /** The first of the probes that settles the matter. */
  function Then(first: Outcome, second: Outcome): Outcome {
    if first.NotFound? then second else first
  }

  function AskRoom(rooms: Rooms, room: RoomId, targets: seq<BridgeTarget>): Outcome {
    if targets == [] then NotFound
    else Then(AskRoom(rooms, room, targets[..|targets| - 1]), AskTarget(rooms, room, targets[|targets| - 1]))
  }

  function AskTarget(rooms: Rooms, room: RoomId, target: BridgeTarget): Outcome {
    Then(Probe(rooms, room, BRIDGE, target), Probe(rooms, room, HALF_SHOT, target))
  }

  method LookupRoom(rooms: Rooms, room: RoomId, targets: seq<BridgeTarget>) returns (r: Outcome)
    ensures r == AskRoom(rooms, room, targets)
  {
    for i := 0 to |targets|
      invariant AskRoom(rooms, room, targets[..i]) == NotFound
    {
      assert targets[..i + 1][..i] == targets[..i];
      r := Probe(rooms, room, BRIDGE, targets[i]);
      if r.NotFound? { r := Probe(rooms, room, HALF_SHOT, targets[i]); }
      if !r.NotFound? {
        AskRoomStops(rooms, room, targets, i + 1);
        return;
      }
    }
    assert targets[..|targets|] == targets;
    r := NotFound;
  }

  /** Once settled, later targets make no difference. */
  lemma {:induction false} AskRoomStops(rooms: Rooms, room: RoomId, targets: seq<BridgeTarget>, n: nat)
    requires n <= |targets| && !AskRoom(rooms, room, targets[..n]).NotFound?
    ensures AskRoom(rooms, room, targets) == AskRoom(rooms, room, targets[..n])
  {
    if n == |targets| {
      assert targets[..n] == targets;
    } else {
      assert targets[..|targets| - 1][..n] == targets[..n];
      AskRoomStops(rooms, room, targets[..|targets| - 1], n);
    }
  }

  // ---- What it means for a room to match ----

  /** The room holds a bridge event for the target's key: with a key that is enough, without one
      the event must name the target's protocol and channel. */
  predicate Holds(rooms: Rooms, room: RoomId, eventType: string, target: BridgeTarget) {
    match rooms(room, eventType, target.stateKey)
    case Present(content) =>
      || target.stateKey != ""
      || (content.protocolId.Some? && content.protocolId == target.protocolId
          && content.channelId.Some? && content.channelId == target.channelId)
    case _ => false
  }

  predicate Matches(rooms: Rooms, room: RoomId, target: BridgeTarget) {
    Holds(rooms, room, BRIDGE, target) || Holds(rooms, room, HALF_SHOT, target)
  }

  predicate Fails(rooms: Rooms, room: RoomId, target: BridgeTarget) {
    rooms(room, BRIDGE, target.stateKey).Failed? || rooms(room, HALF_SHOT, target.stateKey).Failed?
  }

  lemma ProbeMeans(rooms: Rooms, room: RoomId, eventType: string, target: BridgeTarget)
    requires eventType == BRIDGE || eventType == HALF_SHOT
    ensures Probe(rooms, room, eventType, target)
      == (if rooms(room, eventType, target.stateKey).Failed? then Error
          else if Holds(rooms, room, eventType, target) then Found(room, target.displayName) else NotFound)
  {
    match rooms(room, eventType, target.stateKey)
    case Present(content) =>
      var e := StateEvent(Some(eventType), Some(target.stateKey), content);
      var t := BridgeTarget(target.stateKey, content.protocolId, content.channelId, content.displayName);
      assert [e][..0] == [];
      assert ExtractBridgeTargets([e]) == [t];
      assert [t][0] == t;
    case _ =>
  }

  /** What asking a room comes to, for any room states and failures. */
  predicate Answers(rooms: Rooms, room: RoomId, targets: seq<BridgeTarget>, r: Outcome) {
    match r
    case Found(found, name) => found == room && exists t ::
      t in targets && Matches(rooms, room, t) && name == t.displayName
    case NotFound => forall t :: t in targets ==> !Matches(rooms, room, t) && !Fails(rooms, room, t)
    case Error => exists t :: t in targets && Fails(rooms, room, t)
  }

  lemma {:induction false} AskRoomAnswers(rooms: Rooms, room: RoomId, targets: seq<BridgeTarget>)
    ensures Answers(rooms, room, targets, AskRoom(rooms, room, targets))
  {
    hide Probe, Holds;
    if targets != [] {
      var init, last := targets[..|targets| - 1], targets[|targets| - 1];
      AskRoomAnswers(rooms, room, init);
      ProbeMeans(rooms, room, BRIDGE, last);
      ProbeMeans(rooms, room, HALF_SHOT, last);
      assert forall t :: t in targets <==> t in init || t == last;
      assert last in targets;
      var first, all := AskRoom(rooms, room, init), AskRoom(rooms, room, targets);
      if first.Found? {
        var t :| t in init && Matches(rooms, room, t) && first.name == t.displayName;
        assert t in targets;
      } else if first.NotFound? && all.Found? {
        assert Matches(rooms, room, last) && all.name == last.displayName;
      }
    }
  }

  /** A target is settled by its first bridge event before the second is asked for. */
  lemma AskTargetIs(rooms: Rooms, room: RoomId, t: BridgeTarget)
    ensures AskTarget(rooms, room, t) ==
      if rooms(room, "m.bridge", t.stateKey).Failed? then Error
      else if Holds(rooms, room, "m.bridge", t) then Found(room, t.displayName)
      else if rooms(room, "uk.half-shot.bridge", t.stateKey).Failed? then Error
      else if Holds(rooms, room, "uk.half-shot.bridge", t) then Found(room, t.displayName) else NotFound
  {
    hide Probe, Holds;
    ProbeMeans(rooms, room, BRIDGE, t);
    ProbeMeans(rooms, room, HALF_SHOT, t);
  }

  /** A room is settled by its first target that is, whatever comes after. */
  lemma {:induction false} FirstTargetSettles(rooms: Rooms, room: RoomId, targets: seq<BridgeTarget>, k: nat)
    requires k < |targets| && !AskTarget(rooms, room, targets[k]).NotFound?
    requires forall j :: 0 <= j < k ==> AskTarget(rooms, room, targets[j]).NotFound?
    ensures AskRoom(rooms, room, targets) == AskTarget(rooms, room, targets[k])
  {
    hide AskTarget;
    AllNotFound(rooms, room, targets, k);
    assert targets[..k + 1][..k] == targets[..k];
    AskRoomStops(rooms, room, targets, k + 1);
  }

  lemma {:induction false} AllNotFound(rooms: Rooms, room: RoomId, targets: seq<BridgeTarget>, k: nat)
    requires k <= |targets| && forall j :: 0 <= j < k ==> AskTarget(rooms, room, targets[j]).NotFound?
    ensures AskRoom(rooms, room, targets[..k]) == NotFound
  {
    hide AskTarget;
    if k > 0 {
      AllNotFound(rooms, room, targets, k - 1);
      assert targets[..k][..k - 1] == targets[..k - 1];
    }
  }

  // ---- The pool of lookups ----

  datatype Move = Spawn(index: nat) | Join(index: nat)

  function InFlight(moves: seq<Move>): set<nat> {
    if moves == [] then {}
    else match moves[|moves| - 1]
      case Spawn(i) => InFlight(moves[..|moves| - 1]) + {i}
      case Join(i) => InFlight(moves[..|moves| - 1]) - {i}
  }

  /** Never more than 32 in flight; each index started at most once, and never for the stale room. */
  ghost predicate PoolKept(moves: seq<Move>, joined: seq<RoomId>, stale: RoomId) {
    && (forall n :: 0 <= n <= |moves| ==> |InFlight(moves[..n])| <= 32)
    && (forall n :: 0 <= n < |moves| && moves[n].Spawn?
          ==> moves[n].index < |joined| && joined[moves[n].index] != stale)
    && (forall m, n :: 0 <= m < n < |moves| && moves[m].Spawn? && moves[n].Spawn? ==> moves[m].index != moves[n].index)
  }

  predicate MaySpawn(moves: seq<Move>, i: nat, joined: seq<RoomId>, stale: RoomId) {
    && |InFlight(moves)| < CONCURRENCY && i < |joined| && joined[i] != stale
    && forall n :: 0 <= n < |moves| && moves[n].Spawn? ==> moves[n].index < i
  }

  lemma InFlightGrows(moves: seq<Move>, move: Move)
    ensures move.Spawn? ==> InFlight(moves + [move]) == InFlight(moves) + {move.index}
    ensures move.Join? ==> InFlight(moves + [move]) == InFlight(moves) - {move.index}
    ensures forall n :: 0 <= n <= |moves| ==> (moves + [move])[..n] == moves[..n]
    ensures (moves + [move])[..|moves| + 1] == moves + [move]
  {
    PrefixesStay(moves, move);
    var more := moves + [move];
    assert more[|more| - 1] == move && more[..|more| - 1] == moves;
  }

  lemma PrefixesStay(moves: seq<Move>, move: Move)
    ensures forall n :: 0 <= n <= |moves| ==> (moves + [move])[..n] == moves[..n]
    ensures (moves + [move])[..|moves| + 1] == moves + [move]
  {
  }

  lemma PoolGrows(moves: seq<Move>, move: Move, joined: seq<RoomId>, stale: RoomId)
    requires PoolKept(moves, joined, stale) && (move.Spawn? ==> MaySpawn(moves, move.index, joined, stale))
    ensures PoolKept(moves + [move], joined, stale)
  {
    hide InFlight;
    var more := moves + [move];
    InFlightGrows(moves, move);
    assert moves[..|moves|] == moves;
    if move.Join? { SmallerWithout(InFlight(moves), move.index); }
    assert |InFlight(more)| <= CONCURRENCY;
    forall n | 0 <= n <= |more| ensures |InFlight(more[..n])| <= CONCURRENCY {
      if n <= |moves| { assert more[..n] == moves[..n]; } else { assert more[..n] == more; }
    }
  }

  lemma SmallerWithout(s: set<nat>, i: nat)
    ensures |s - {i}| <= |s|
  {
    if i in s { assert |s - {i}| == |s| - 1; } else { assert s - {i} == s; }
  }

  function ExactTargets(targets: seq<BridgeTarget>): (r: seq<BridgeTarget>)
    ensures forall t :: t in r <==> t in targets && t.stateKey != ""
  {
    if targets == [] then []
    else
      var last := targets[|targets| - 1];
      ExactTargets(targets[..|targets| - 1]) + if last.stateKey != "" then [last] else []
  }

  /** The pool's books: `flying` are in flight, rooms before `next` are started, and those done
      did not match. */
  ghost predicate PoolState(rooms: Rooms, exact: seq<BridgeTarget>, joined: seq<RoomId>, stale: RoomId,
                            moves: seq<Move>, flying: set<nat>, next: nat)
  {
    && next <= |joined| && flying == InFlight(moves) && |flying| <= CONCURRENCY && PoolKept(moves, joined, stale)
    && (forall n :: 0 <= n < |moves| && moves[n].Spawn? ==> moves[n].index < next)
    && (forall k :: k in flying ==> k < next && joined[k] != stale)
    && (forall k :: 0 <= k < next && joined[k] != stale && k !in flying
          ==> AskRoom(rooms, joined[k], exact) == NotFound)
  }

  lemma PoolStarts(rooms: Rooms, exact: seq<BridgeTarget>, joined: seq<RoomId>, stale: RoomId, moves: seq<Move>,
                   flying: set<nat>, next: nat)
    requires PoolState(rooms, exact, joined, stale, moves, flying, next) && next < |joined|
    ensures joined[next] == stale ==> PoolState(rooms, exact, joined, stale, moves, flying, next + 1)
    ensures joined[next] != stale && |flying| < CONCURRENCY
      ==> PoolState(rooms, exact, joined, stale, moves + [Spawn(next)], flying + {next}, next + 1)
  {
    hide InFlight, PoolKept, AskRoom;
    if joined[next] != stale && |flying| < CONCURRENCY {
      PoolGrows(moves, Spawn(next), joined, stale);
      InFlightGrows(moves, Spawn(next));
    }
  }

  lemma PoolFinishes(rooms: Rooms, exact: seq<BridgeTarget>, joined: seq<RoomId>, stale: RoomId, moves: seq<Move>,
                     flying: set<nat>, next: nat, k: nat)
    requires PoolState(rooms, exact, joined, stale, moves, flying, next) && k in flying
    ensures k < |joined| && joined[k] != stale && PoolKept(moves + [Join(k)], joined, stale)
    ensures AskRoom(rooms, joined[k], exact) == NotFound
        ==> PoolState(rooms, exact, joined, stale, moves + [Join(k)], flying - {k}, next)
  {
    hide InFlight, PoolKept, AskRoom;
    PoolGrows(moves, Join(k), joined, stale);
    InFlightGrows(moves, Join(k));
    SmallerWithout(flying, k);
  }

  /** Lookups finish in any order: `:|` picks which of those in flight is next. */
  method LookupJoinedRooms(rooms: Rooms, joined: seq<RoomId>, targets: seq<BridgeTarget>, stale: RoomId)
    returns (r: Outcome, moves: seq<Move>)
    ensures PoolKept(moves, joined, stale)
    ensures r.NotFound? ==> forall k ::
        0 <= k < |joined| && joined[k] != stale ==> AskRoom(rooms, joined[k], ExactTargets(targets)) == NotFound
    ensures !r.NotFound? ==> exists k ::
        0 <= k < |joined| && joined[k] != stale && AskRoom(rooms, joined[k], ExactTargets(targets)) == r
  {
    hide Probe, Then, InFlight, PoolKept, AskRoom, PoolState;
    moves := [];
    EmptyPool(joined, stale);
    var exact := ExactTargets(targets);
    if exact == [] {
      forall k | 0 <= k < |joined| ensures AskRoom(rooms, joined[k], exact) == NotFound {
        NothingAsked(rooms, joined[k]);
      }
      return NotFound, moves;
    }
    var flying: set<nat>, next: nat := {}, 0;
    assert PoolState(rooms, exact, joined, stale, moves, flying, next) by { PoolBegins(rooms, exact, joined, stale); }
    while next < |joined| || flying != {}
      invariant next <= |joined| && PoolState(rooms, exact, joined, stale, moves, flying, next)
      decreases |joined| - next, |flying|
    {
      ghost var start, before := next, flying;
      while next < |joined| && |flying| < CONCURRENCY
        invariant PoolState(rooms, exact, joined, stale, moves, flying, next)
        invariant start <= next <= |joined| && (next == start ==> flying == before)
      {
        PoolStarts(rooms, exact, joined, stale, moves, flying, next);
        next := next + 1;
        if joined[next - 1] == stale { continue; }
        moves := moves + [Spawn(next - 1)];
        flying := flying + {next - 1};
      }
      if flying == {} { break; }
      var k :| k in flying;
      PoolFinishes(rooms, exact, joined, stale, moves, flying, next, k);
      moves := moves + [Join(k)];
      flying := flying - {k};
      r := LookupRoom(rooms, joined[k], exact);
      if !r.NotFound? { return; }
    }
    r := NotFound;
    PoolEnds(rooms, exact, joined, stale, moves, next);
  }

  lemma PoolBegins(rooms: Rooms, exact: seq<BridgeTarget>, joined: seq<RoomId>, stale: RoomId)
    ensures PoolState(rooms, exact, joined, stale, [], {}, 0)
  {
  }

  lemma PoolEnds(rooms: Rooms, exact: seq<BridgeTarget>, joined: seq<RoomId>, stale: RoomId, moves: seq<Move>,
                 next: nat)
    requires PoolState(rooms, exact, joined, stale, moves, {}, next)
    ensures PoolKept(moves, joined, stale) && next <= |joined|
    ensures next == |joined| ==> forall k ::
        0 <= k < |joined| && joined[k] != stale ==> AskRoom(rooms, joined[k], exact) == NotFound
  {
    hide AskRoom, PoolKept;
  }

  lemma EmptyPool(joined: seq<RoomId>, stale: RoomId)
    ensures InFlight([]) == {} && PoolKept([], joined, stale)
  {
  }

  lemma NothingAsked(rooms: Rooms, room: RoomId)
    ensures AskRoom(rooms, room, []) == NotFound
  {
  }

  // ---- The whole search ----

  predicate Candidate(joined: seq<RoomId>, stale: RoomId, room: RoomId) {
    room in joined && room != stale
  }

  ghost predicate SomeMatch(rooms: Rooms, joined: seq<RoomId>, stale: RoomId, targets: seq<BridgeTarget>) {
    exists room, t :: Candidate(joined, stale, room) && t in targets && Matches(rooms, room, t)
  }

  ghost predicate SomeFailure(rooms: Rooms, joined: seq<RoomId>, stale: RoomId, targets: seq<BridgeTarget>) {
    exists room, t :: Candidate(joined, stale, room) && t in targets && Fails(rooms, room, t)
  }

  /** The room found is joined, is not the stale one, and matches a target of that name. */
  ghost predicate Proper(rooms: Rooms, joined: seq<RoomId>, stale: RoomId, targets: seq<BridgeTarget>,
                         room: RoomId, name: Option<string>) {
    Candidate(joined, stale, room) && exists t :: t in targets && Matches(rooms, room, t) && name == t.displayName
  }

  lemma AnswerIsProper(rooms: Rooms, joined: seq<RoomId>, stale: RoomId, targets: seq<BridgeTarget>,
                       some: seq<BridgeTarget>, room: RoomId)
    requires Candidate(joined, stale, room) && forall t :: t in some ==> t in targets
    ensures var r := AskRoom(rooms, room, some);
      && (r.Found? ==> Proper(rooms, joined, stale, targets, r.room, r.name))
      && (r.Found? ==> SomeMatch(rooms, joined, stale, targets))
      && (r.Error? ==> SomeFailure(rooms, joined, stale, targets))
  {
    hide AskRoom, Matches, Fails;
    AskRoomAnswers(rooms, room, some);
  }

  ghost predicate NoFailure(rooms: Rooms, oldState: Option<seq<StateEvent>>, joined: Option<seq<RoomId>>,
                            stale: RoomId) {
    oldState.Some? && joined.Some? && !SomeFailure(rooms, joined.value, stale, ExtractBridgeTargets(oldState.value))
  }

  /** What the result says, whatever the failures: a room found is a proper one, nothing is reported
      missing while some joined room matches, and an error means some call failed. */
  ghost predicate Truthful(rooms: Rooms, oldState: Option<seq<StateEvent>>, joined: Option<seq<RoomId>>,
                           stale: RoomId, r: Outcome) {
    var targets := ExtractBridgeTargets(oldState.GetOr([]));
    match r
    case Found(room, name) => oldState.Some? && joined.Some? && Proper(rooms, joined.value, stale, targets, room, name)
    case NotFound => oldState.Some?
      && (targets == [] || (joined.Some? && !SomeMatch(rooms, joined.value, stale, targets)))
    case Error => oldState.None? || joined.None? || SomeFailure(rooms, joined.value, stale, targets)
  }

  /** `oldState` is the stale room's state and `joinedRooms` the list of joined rooms; None if the
      call fails. When no call fails the search finds a room exactly when a plain scan of every
      joined room for every target would. */
  method ResolveReplacementRoom(rooms: Rooms, oldState: Option<seq<StateEvent>>, joinedRooms: Option<seq<RoomId>>,
                                stale: RoomId)
    returns (r: Outcome)
    ensures Truthful(rooms, oldState, joinedRooms, stale, r)
    ensures NoFailure(rooms, oldState, joinedRooms, stale)
      ==> (r.Found? <==> SomeMatch(rooms, joinedRooms.value, stale, ExtractBridgeTargets(oldState.value)))
  {
    hide Probe, Matches, Fails, Proper, AskRoom, ExtractBridgeTargets;
    if oldState.None? { return Error; }
    var targets := ExtractBridgeTargets(oldState.value);
    if targets == [] { return NotFound; }
    if joinedRooms.None? { return Error; }
    var joined := joinedRooms.value;
    var moves;
    r, moves := LookupJoinedRooms(rooms, joined, targets, stale);
    if !r.NotFound? {
      ghost var k :| 0 <= k < |joined| && joined[k] != stale && AskRoom(rooms, joined[k], ExactTargets(targets)) == r;
      AnswerIsProper(rooms, joined, stale, targets, ExactTargets(targets), joined[k]);
      return;
    }
    for k := 0 to |joined|
      invariant forall j :: 0 <= j < k && joined[j] != stale ==> AskRoom(rooms, joined[j], targets) == NotFound
    {
      if joined[k] == stale { continue; }
      r := LookupRoom(rooms, joined[k], targets);
      if !r.NotFound? {
        AnswerIsProper(rooms, joined, stale, targets, targets, joined[k]);
        return;
      }
    }
    r := NotFound;
    NoneMatches(rooms, joined, stale, targets);
  }

  lemma NoneMatches(rooms: Rooms, joined: seq<RoomId>, stale: RoomId, targets: seq<BridgeTarget>)
    requires forall j :: 0 <= j < |joined| && joined[j] != stale ==> AskRoom(rooms, joined[j], targets) == NotFound
    ensures !SomeMatch(rooms, joined, stale, targets)
  {
    hide AskRoom, Matches, Fails;
    forall room, t | Candidate(joined, stale, room) && t in targets ensures !Matches(rooms, room, t) {
      var j :| 0 <= j < |joined| && joined[j] == room;
      AskRoomAnswers(rooms, joined[j], targets);
    }
  }
}
