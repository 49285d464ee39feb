/**
 * The dungeon grid shared by server and client: cell codes 0 (wall), 1
 * (corridor) and 2+ (room number), the room metadata produced by the maze
 * generator, and the four unit steps a player can take.
 */
module Grid {

  /** A cell position: `x` is the column, `y` the row. */
  datatype Point = Point(x: int, y: int)

  /** One generated room: its id (2 for the first one), top-left corner,
      size and centre cell. */
  datatype Room = Room(id: int, x: int, y: int, w: int, h: int, cx: int, cy: int)

  /** The generator's output as the server stores it and sends it out:
      `maze[y][x]` is the code of the cell in column x and row y, and
      `lastRoomId` is the id the NEXT room would have received. */
  datatype Dungeon = Dungeon(maze: seq<seq<int>>, w: int, h: int, rooms: seq<Room>, lastRoomId: int)

  /** The maze has `h` rows of `w` cells each. */
  ghost predicate WellFormed(d: Dungeon)
  {
    && 0 <= d.w
    && d.h == |d.maze|
    && forall y :: 0 <= y < |d.maze| ==> |d.maze[y]| == d.w
  }

  predicate InBounds(d: Dungeon, p: Point)
  {
    0 <= p.x < d.w && 0 <= p.y < d.h
  }

  /** A cell a player may stand on: inside `[0,w) x [0,h)` and not a wall. */
  predicate Walkable(d: Dungeon, p: Point)
    requires WellFormed(d)
  {
    InBounds(d, p) && d.maze[p.y][p.x] > 0
  }

  /** The JavaScript test `maze[y][x] > 0` once row `y` exists: an index
      outside the row reads `undefined`, and `undefined > 0` is false. Only
      the row index has to be valid; a missing row would be a TypeError. */
  predicate CellOpen(d: Dungeon, x: int, y: int)
    requires WellFormed(d) && 0 <= y < d.h
    ensures CellOpen(d, x, y) <==> Walkable(d, Point(x, y))
  {
    0 <= x < |d.maze[y]| && d.maze[y][x] > 0
  }

  /** The four movement directions of the client. */
  datatype Dir = Left | Right | Up | Down

  function Opposite(dir: Dir): Dir
  {
    match dir
    case Left => Right
    case Right => Left
    case Up => Down
    case Down => Up
  }

  /** The cell one step away: `left()`/`right()` change the column by -1/+1,
      `up()`/`down()` change the row by -1/+1. */
  function StepTo(p: Point, dir: Dir): (q: Point)
    ensures dir in {Left, Right} ==> q.y == p.y && (q.x - p.x == 1 || p.x - q.x == 1)
    ensures dir in {Up, Down} ==> q.x == p.x && (q.y - p.y == 1 || p.y - q.y == 1)
    ensures dir == Left ==> q.x < p.x
    ensures dir == Right ==> q.x > p.x
    ensures dir == Up ==> q.y < p.y
    ensures dir == Down ==> q.y > p.y
  {
    match dir
    case Left => p.(x := p.x - 1)
    case Right => p.(x := p.x + 1)
    case Up => p.(y := p.y - 1)
    case Down => p.(y := p.y + 1)
  }

  /** Stepping back the opposite way undoes a step. */
  lemma StepThenOppositeIsIdentity(p: Point, dir: Dir)
    ensures StepTo(StepTo(p, dir), Opposite(dir)) == p
  {
  }

  /** A step never lands on the cell it started from, and distinct
      directions lead to distinct cells. */
  lemma StepsAreDistinct(p: Point, a: Dir, b: Dir)
    ensures StepTo(p, a) != p
    ensures a != b ==> StepTo(p, a) != StepTo(p, b)
  {
  }
}
