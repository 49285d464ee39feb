/**
 * The server's shared state and the atomic transitions its socket handlers
 * make. Node runs one handler at a time, so each event is one pure step
 * from a state to a state.
 */
module Server {
  import opened Results
  import opened Grid
  import opened WorldStore
  import opened Roster

  /** The module-level `dungeon`, `dungeonStart`, `dungeonEnd` and `players`. */
  datatype State = State(world: World, roster: seq<Player>)

  /** The one way a handler can fail: a move from a socket with no roster
      entry dereferences `undefined`. */
  datatype Fault = UnknownPlayer

  /** The state after a move and, when the move reached the goal, the point
      broadcast as `player restart`. */
  datatype MoveOutcome = MoveOutcome(state: State, restart: Option<Point>)

  /** Inbound events. `nextDungeon` is the dungeon the generator would return if
      this move triggers a regeneration. */
  datatype Event =
    | Start(sid: string)
    | Disconnect(sid: string)
    | Coordinates(sid: string, x: int, y: int, nextDungeon: Dungeon)

  /** The reward for reaching the end point. */
  const GoalReward := 10

  /** The server after its start-up generation, before anyone connects. */
  function Init(d: Dungeon): (s: State)
    ensures s.world == Generate(d) && |s.roster| == 0
  {
    State(Generate(d), [])
  }

  /** The `start` handler: a new entry at the current start point. */
  function OnStart(s: State, sid: string): (t: State)
    ensures t.world == s.world
    ensures |t.roster| == |s.roster| + 1
    ensures forall i :: 0 <= i < |s.roster| ==> t.roster[i] == s.roster[i]
    ensures var p := t.roster[|s.roster|]; p.id == sid && Position(p) == s.world.start && p.score == 0
    ensures Count(t.roster, sid) == Count(s.roster, sid) + 1
  {
    AdmitAddsOneEntry(s.roster, sid, s.world.start);
    s.(roster := Admit(s.roster, sid, s.world.start))
  }

  /** The `disconnect` handler. Entries of other sockets all survive in
      order; at least one entry of `sid` goes if there is one, and a
      disconnect of an unknown socket changes nothing. */
  function OnDisconnect(s: State, sid: string): (t: State)
    ensures t.world == s.world
    ensures Filter(t.roster, sid) == Filter(s.roster, sid)
    ensures Count(s.roster, sid) > 0 ==> Count(t.roster, sid) < Count(s.roster, sid)
    ensures Count(s.roster, sid) == 0 ==> t == s
  {
    SkipRemoveKeepsOthers(s.roster, sid);
    s.(roster := SkipRemove(s.roster, sid))
  }

  /** The `player coordinates` handler. The mover is the last entry for
      `sid`; its position is overwritten with the reported one, unchecked.
      If that position equals the current end point, the mover gains 10
      points, the world is regenerated from `nextDungeon`, and every entry is put
      on the new start, which is also broadcast as the restart point. */
  function OnCoordinates(s: State, sid: string, x: int, y: int, nextDungeon: Dungeon): (r: Result<MoveOutcome, Fault>)
    ensures r.Err? <==> Count(s.roster, sid) == 0
    ensures r.Ok? ==> |r.value.state.roster| == |s.roster|
    ensures r.Ok? ==> forall k :: 0 <= k < |s.roster| ==> r.value.state.roster[k].id == s.roster[k].id
    // a move that does not hit the end point
    ensures r.Ok? && Point(x, y) != s.world.end ==>
      && r.value.state.world == s.world
      && r.value.restart == None
      && forall k :: 0 <= k < |s.roster| ==>
           var before, after := s.roster[k], r.value.state.roster[k];
           if IsMover(s.roster, sid, k) then Position(after) == Point(x, y) && after.score == before.score
           else after == before
    // a move onto the end point
    ensures r.Ok? && Point(x, y) == s.world.end ==>
      && r.value.state.world == Generate(nextDungeon)
      && r.value.restart == Some(Generate(nextDungeon).start)
      && forall k :: 0 <= k < |s.roster| ==>
           var before, after := s.roster[k], r.value.state.roster[k];
           && Position(after) == Generate(nextDungeon).start
           && after.score == before.score + (if IsMover(s.roster, sid, k) then GoalReward else 0)
  {
    match LastIndexOf(s.roster, sid)
    case None => Err(UnknownPlayer)
    case Some(i) =>
      var moved := s.roster[i].(x := x, y := y);
      if moved.x == s.world.end.x && moved.y == s.world.end.y then
        var world := Generate(nextDungeon);
        var scored := s.roster[i := moved.(score := moved.score + GoalReward)];
        Ok(MoveOutcome(State(world, ResetAll(scored, world.start)), Some(world.start)))
      else
        Ok(MoveOutcome(s.(roster := s.roster[i := moved]), None))
  }

  /** One event applied to the state; a failing handler leaves it as it was. */
  function Step(s: State, e: Event): (t: State)
    ensures e.Coordinates? && Count(s.roster, e.sid) == 0 ==> t == s
    ensures |t.roster| <= |s.roster| + 1
  {
    match e
    case Start(sid) => OnStart(s, sid)
    case Disconnect(sid) => OnDisconnect(s, sid)
    case Coordinates(sid, x, y, nextDungeon) =>
      match OnCoordinates(s, sid, x, y, nextDungeon)
      case Ok(outcome) => outcome.state
      case Err(_) => s
  }

  /** A move that arrives after its socket's disconnect fails exactly when
      the disconnect cleared every entry of that socket, which is exactly
      when no two of them were neighbours in the roster. */
  lemma MoveAfterDisconnect(s: State, sid: string, x: int, y: int, nextDungeon: Dungeon)
    ensures OnCoordinates(OnDisconnect(s, sid), sid, x, y, nextDungeon).Err? <==> NoAdjacentPair(s.roster, sid)
  {
    DisconnectClearsIff(s.roster, sid);
  }

  /** With unique ids a move after disconnect always fails, and the other
      players keep their entries in order. */
  lemma MoveAfterDisconnectUnique(s: State, sid: string, x: int, y: int, nextDungeon: Dungeon)
    requires UniqueIds(s.roster)
    ensures OnCoordinates(OnDisconnect(s, sid), sid, x, y, nextDungeon).Err?
    ensures OnDisconnect(s, sid).roster == Filter(s.roster, sid)
  {
    DisconnectUnique(s.roster, sid);
  }

  /** Right after `start`, a move from the same socket succeeds and moves the
      entry just appended, even when earlier entries carry the same id. */
  lemma MoveAfterStart(s: State, sid: string, x: int, y: int, nextDungeon: Dungeon)
    requires Point(x, y) != s.world.end
    ensures var t := OnStart(s, sid);
      var r := OnCoordinates(t, sid, x, y, nextDungeon);
      && r.Ok?
      && Position(r.value.state.roster[|s.roster|]) == Point(x, y)
      && r.value.state.roster[..|s.roster|] == s.roster
  {
    var t := OnStart(s, sid);
    assert IsMover(t.roster, sid, |s.roster|);
    var r := OnCoordinates(t, sid, x, y, nextDungeon);
    assert r.value.state.roster[..|s.roster|] == s.roster;
  }

  /** Unique ids survive every event except a second `start` from a socket
      that already has an entry. */
  lemma StepKeepsIdsUnique(s: State, e: Event)
    requires UniqueIds(s.roster)
    requires e.Start? ==> Count(s.roster, e.sid) == 0
    ensures UniqueIds(Step(s, e).roster)
  {
    match e
    case Start(sid) =>
      AdmitUniqueness(s.roster, sid, s.world.start);
    case Disconnect(sid) =>
      DisconnectUnique(s.roster, sid);
    case Coordinates(sid, x, y, nextDungeon) =>
  }

  /** No event lowers a score: a move raises the mover's score by 0 or 10
      and keeps every other score, entry by entry. */
  lemma MoveNeverLowersScores(s: State, sid: string, x: int, y: int, nextDungeon: Dungeon)
    ensures var r := OnCoordinates(s, sid, x, y, nextDungeon);
      r.Ok? ==> forall k :: 0 <= k < |s.roster| ==>
        s.roster[k].score <= r.value.state.roster[k].score <= s.roster[k].score + GoalReward
  {
  }

  /** A fresh server, one player admitted, the player walks onto the end
      point: it scores 10 and stands on the new world's start, which is the
      point every client is told to restart from. */
  lemma FirstGoalScenario(d: Dungeon, nextDungeon: Dungeon, sid: string)
    ensures var s := OnStart(Init(d), sid);
      var r := OnCoordinates(s, sid, s.world.end.x, s.world.end.y, nextDungeon);
      && r.Ok?
      && r.value.state.roster == [Player(sid, Generate(nextDungeon).start.x, Generate(nextDungeon).start.y, 10)]
      && r.value.restart == Some(Generate(nextDungeon).start)
  {
    var s := OnStart(Init(d), sid);
    assert IsMover(s.roster, sid, 0);
  }
}
