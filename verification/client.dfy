/**
 * The client's movement logic: the recomputed `canMoveX` flags, the four
 * step functions, the keyboard/mouse/tap dispatch that gates them, the
 * `player restart` update and the sprite-frame stepper.
 */
module Client {
  import opened Results
  import opened Grid
  import opened Tiles
  import opened Roster
  import Server

  // ---------------------------------------------------------------- flags

  /** The flags `animate` recomputes at the player's own cell in every frame
      whose interval has elapsed, with the same one-sided guards as
      `identifySpaceType`. */
  function MovementFlags(d: Dungeon, p: Point): (flags: Exits)
    requires WellFormed(d) && 0 <= p.y < d.h
    ensures forall dir :: Open(flags, dir) <==> Walkable(d, StepTo(p, dir))
    ensures OpenCount(flags) < 2 <==> IdentifySpaceType(d, p).spaceType == ""
  {
    Neighbours(d, p)
  }

  // ---------------------------------------------------------------- input

  /** An input event: a key code from `keydown`, a `mousedown` on one of the
      four on-screen buttons, or a `tap` on one of them. */
  datatype Input = Key(which: int) | Mouse(button: Dir) | Tap(button: Dir)

  /** The arrow key codes the `keydown` handler reacts to. */
  const KeyLeft := 37
  const KeyUp := 38
  const KeyRight := 39
  const KeyDown := 40

  /** The step function an input calls, if it calls one at all. */
  function StepOf(input: Input): (r: Option<Dir>)
    ensures input.Key? ==> (r.Some? <==> KeyLeft <= input.which <= KeyDown)
    ensures !input.Key? ==> r == Some(input.button)
  {
    match input
    case Key(which) =>
      if which == KeyLeft then Some(Left)
      else if which == KeyRight then Some(Right)
      else if which == KeyUp then Some(Up)
      else if which == KeyDown then Some(Down)
      else None
    case Mouse(button) => Some(button)
    case Tap(button) => Some(button)
  }

  /** Calls the step for `step` when the flag of `gate` is set; the new
      position is what `player coordinates` then reports to the server. */
  function Guarded(flags: Exits, p: Point, gate: Dir, step: Dir): (r: Option<Point>)
    ensures r.Some? <==> Open(flags, gate)
    ensures r.Some? ==> r.value == StepTo(p, step)
  {
    if Open(flags, gate) then Some(StepTo(p, step)) else None
  }

  /** The input handlers as written. Keys and mouse buttons check the flag
      of the direction they step in; the `#right` tap checks `canMoveLeft`
      and the `#left` tap checks `canMoveRight`. */
  function Handle(flags: Exits, p: Point, input: Input): (r: Option<Point>)
    ensures r.Some? ==> StepOf(input).Some? && r.value == StepTo(p, StepOf(input).value)
    ensures !(input.Tap? && input.button in {Left, Right}) ==>
      (r.Some? <==> StepOf(input).Some? && Open(flags, StepOf(input).value))
    ensures input.Tap? && input.button in {Left, Right} ==>
      (r.Some? <==> Open(flags, Opposite(input.button)))
  {
    match input
    case Key(which) =>
      if which == KeyLeft then Guarded(flags, p, Left, Left)
      else if which == KeyRight then Guarded(flags, p, Right, Right)
      else if which == KeyUp then Guarded(flags, p, Up, Up)
      else if which == KeyDown then Guarded(flags, p, Down, Down)
      else None
    case Mouse(button) => Guarded(flags, p, button, button)
    case Tap(Right) => Guarded(flags, p, Left, Right)
    case Tap(Left) => Guarded(flags, p, Right, Left)
    case Tap(button) => Guarded(flags, p, button, button)
  }

  /** The handlers with each tap gated by the flag of its own direction. */
  function HandleCorrected(flags: Exits, p: Point, input: Input): (r: Option<Point>)
    ensures r.Some? <==> StepOf(input).Some? && Open(flags, StepOf(input).value)
    ensures r.Some? ==> r.value == StepTo(p, StepOf(input).value)
    ensures !input.Tap? ==> r == Handle(flags, p, input)
  {
    match StepOf(input)
    case None => None
    case Some(dir) => Guarded(flags, p, dir, dir)
  }

  /** With flags computed at the current cell, a key or mouse input steps
      exactly when the cell it steps to is walkable. */
  lemma KeyAndMouseStepsAreSafe(d: Dungeon, p: Point, input: Input)
    requires WellFormed(d) && 0 <= p.y < d.h && !input.Tap?
    ensures var r := Handle(MovementFlags(d, p), p, input);
      && (r.Some? <==> StepOf(input).Some? && Walkable(d, StepTo(p, StepOf(input).value)))
      && (r.Some? ==> Walkable(d, r.value))
  {
  }

  /** The crossed tap gates let a player walk into a wall: in a one-row maze
      `1 1 0`, from the middle cell, the left neighbour is open, so a tap on
      `#right` passes the gate and steps onto the wall. */
  lemma CrossedTapEntersWall()
    ensures var d := Dungeon([[1, 1, 0]], 3, 1, [], 0);
      && WellFormed(d)
      && Handle(MovementFlags(d, Point(1, 0)), Point(1, 0), Tap(Right)) == Some(Point(2, 0))
      && !Walkable(d, Point(2, 0))
  {
    var d := Dungeon([[1, 1, 0]], 3, 1, [], 0);
    assert WellFormed(d);
    assert Walkable(d, StepTo(Point(1, 0), Left));
  }

  /** The crossed tap gates let a player leave the maze: in the one-row maze
      `1 1`, from the right-hand cell, a tap on `#right` steps off the edge. */
  lemma CrossedTapLeavesMaze()
    ensures var d := Dungeon([[1, 1]], 2, 1, [], 0);
      && WellFormed(d)
      && Handle(MovementFlags(d, Point(1, 0)), Point(1, 0), Tap(Right)) == Some(Point(2, 0))
      && !InBounds(d, Point(2, 0))
  {
    var d := Dungeon([[1, 1]], 2, 1, [], 0);
    assert WellFormed(d);
    assert Walkable(d, StepTo(Point(1, 0), Left));
  }

  /** With taps gated by their own direction every input is safe. */
  lemma CorrectedStepsAreSafe(d: Dungeon, p: Point, input: Input)
    requires WellFormed(d) && 0 <= p.y < d.h
    ensures var r := HandleCorrected(MovementFlags(d, p), p, input);
      && (r.Some? <==> StepOf(input).Some? && Walkable(d, StepTo(p, StepOf(input).value)))
      && (r.Some? ==> Walkable(d, r.value))
  {
  }

  /** The flags as the page loads, before any frame has computed them: all
      four are set. */
  const InitialFlags := Exits(true, true, true, true)

  /** Before the first computed frame nothing is gated: every input that
      names a step takes it, walls and edges notwithstanding. */
  lemma InitialFlagsGateNothing(p: Point, input: Input)
    ensures Handle(InitialFlags, p, input).Some? <==> StepOf(input).Some?
    ensures StepOf(input).Some? ==> Handle(InitialFlags, p, input) == Some(StepTo(p, StepOf(input).value))
  {
  }

  /** An up-arrow before the first computed frame, in the top row of the
      maze `1 1`, carries the player from (1, 0) to (1, -1). There the
      `canMoveLeft` guard `x - 1 >= 0` holds, so the next computed frame
      indexes row -1, which does not exist. */
  lemma EarlyInputLeavesRows()
    ensures var d := Dungeon([[1, 1]], 2, 1, [], 0);
      var q := Handle(InitialFlags, Point(1, 0), Key(KeyUp));
      && WellFormed(d)
      && q == Some(Point(1, -1))
      && q.value.x - 1 >= 0
      && !(0 <= q.value.y < d.h)
  {
    var d := Dungeon([[1, 1]], 2, 1, [], 0);
    assert WellFormed(d);
  }

  // ------------------------------------------------------------- sessions

  /** The position after one input handled as written with flags freshly
      computed at the current cell. */
  function Apply(d: Dungeon, p: Point, input: Input): (q: Point)
    requires WellFormed(d) && 0 <= p.y < d.h
    ensures 0 <= q.y < d.h
    ensures q == p || (StepOf(input).Some? && q == StepTo(p, StepOf(input).value))
  {
    match Handle(MovementFlags(d, p), p, input)
    case Some(q) => q
    case None => p
  }

  /** A run of inputs handled as written, a frame passing between any two
      of them. Taps may carry the player out of the columns, but never out
      of the rows, so the flag computation never reads a missing row. */
  function Run(d: Dungeon, p: Point, inputs: seq<Input>): (q: Point)
    requires WellFormed(d) && 0 <= p.y < d.h
    ensures 0 <= q.y < d.h
    decreases |inputs|
  {
    if |inputs| == 0 then p
    else Run(d, Apply(d, p, inputs[0]), inputs[1..])
  }

  /** A run of inputs with corrected tap gates. */
  function RunCorrected(d: Dungeon, p: Point, inputs: seq<Input>): (q: Point)
    requires WellFormed(d) && 0 <= p.y < d.h
    ensures 0 <= q.y < d.h
    ensures q == p || Walkable(d, q)
    decreases |inputs|
  {
    if |inputs| == 0 then p
    else
      var q := match HandleCorrected(MovementFlags(d, p), p, inputs[0]) case Some(q) => q case None => p;
      CorrectedStepsAreSafe(d, p, inputs[0]);
      RunCorrected(d, q, inputs[1..])
  }

  /** Without taps, the as-written handlers and the corrected ones agree. */
  lemma {:induction false} RunWithoutTapsIsCorrect(d: Dungeon, p: Point, inputs: seq<Input>)
    requires WellFormed(d) && 0 <= p.y < d.h
    requires forall i :: 0 <= i < |inputs| ==> !inputs[i].Tap?
    ensures Run(d, p, inputs) == RunCorrected(d, p, inputs)
    decreases |inputs|
  {
    if |inputs| > 0 {
      RunWithoutTapsIsCorrect(d, Apply(d, p, inputs[0]), inputs[1..]);
    }
  }

  // -------------------------------------------------------------- restart

  /** The `player restart` handler: the client's own record moves to the
      broadcast point; id and score are kept. */
  function OnRestart(me: Player, pt: Point): (r: Player)
    ensures Position(r) == pt && r.id == me.id && r.score == me.score
  {
    me.(x := pt.x, y := pt.y)
  }

  /** After a goal, a client that applies the broadcast restart point stands
      where the server has put every roster entry: the new world's start. */
  lemma RestartAgreesWithServer(s: Server.State, sid: string, x: int, y: int, nextDungeon: Dungeon, me: Player, k: int)
    requires Point(x, y) == s.world.end && 0 <= k < |s.roster|
    requires Count(s.roster, sid) > 0
    ensures var out := Server.OnCoordinates(s, sid, x, y, nextDungeon).value;
      && out.restart.Some?
      && Position(OnRestart(me, out.restart.value)) == Position(out.state.roster[k])
      && out.restart.value == out.state.world.start
  {
  }

  // --------------------------------------------------------------- sprite

  /** The sprite sheet window: a frame is `SourceW` wide and the stepper
      wraps once the offset has passed `SpriteLength`. */
  const SourceW := 546
  const SpriteLength := 1584

  /** The animation counter and the current frame's x offset. */
  datatype Sprite = Sprite(counter: nat, sourceX: int)

  /** The offsets the stepper can reach from 0. */
  predicate IsFrame(x: int)
  {
    x == 0 || x == SourceW || x == 2 * SourceW || x == 3 * SourceW
  }

  /** The offset after the one at `x`: one frame further along, or back to
      0 once the offset has passed the sheet. */
  function NextFrame(x: int): int
  {
    if x <= SpriteLength then x + SourceW else 0
  }

  /** One animation cycle: the counter goes up by one, and on every tenth
      cycle the frame advances. */
  function SpriteTick(s: Sprite): (r: Sprite)
    ensures r.counter == s.counter + 1
    ensures r.counter % 10 != 0 ==> r.sourceX == s.sourceX
    ensures r.counter % 10 == 0 ==> r.sourceX == NextFrame(s.sourceX)
    ensures IsFrame(s.sourceX) ==> IsFrame(r.sourceX)
  {
    var counter := s.counter + 1;
    if counter % 10 == 0 then
      if s.sourceX <= SpriteLength then Sprite(counter, s.sourceX + SourceW)
      else Sprite(counter, 0)
    else Sprite(counter, s.sourceX)
  }

  /** The frames form one cycle of four distinct offsets. */
  lemma FrameCycle(x: int)
    requires IsFrame(x)
    ensures NextFrame(NextFrame(NextFrame(NextFrame(x)))) == x
    ensures x != NextFrame(x) && x != NextFrame(NextFrame(x)) && x != NextFrame(NextFrame(NextFrame(x)))
  {
  }
}
