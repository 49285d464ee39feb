/**
 * The server's world: the dungeon last produced by the generator together
 * with the start and end points derived from its room list.
 */
module WorldStore {
  import opened Grid

  /** What the server publishes: the dungeon, `dungeonStart` and `dungeonEnd`. */
  datatype World = World(dungeon: Dungeon, start: Point, end: Point)

  /** `rooms[i]` is the first room carrying `id`. */
  ghost predicate FirstWithId(rooms: seq<Room>, id: int, i: int)
  {
    && 0 <= i < |rooms|
    && rooms[i].id == id
    && forall j :: 0 <= j < i ==> rooms[j].id != id
  }

  function Center(room: Room): Point
  {
    Point(room.cx, room.cy)
  }

  /** Looks up the centre of the room whose id equals `id` (strict
      comparison), scanning the rooms in order and stopping at the first
      match; when no room matches, the point keeps its initial value (0, 0). */
  function RoomCenter(rooms: seq<Room>, id: int): (p: Point)
    ensures forall i :: FirstWithId(rooms, id, i) ==> p == Center(rooms[i])
    ensures (forall i :: 0 <= i < |rooms| ==> rooms[i].id != id) ==> p == Point(0, 0)
  {
    if |rooms| == 0 then Point(0, 0)
    else if rooms[0].id == id then Center(rooms[0])
    else
      var rest := RoomCenter(rooms[1..], id);
      assert forall i :: 1 <= i && FirstWithId(rooms, id, i) ==> FirstWithId(rooms[1..], id, i - 1);
      rest
  }

  /** After generating a dungeon the server takes the centre of room 2 as the
      start and the centre of room `lastRoomId - 1` as the end. A missing room
      silently yields (0, 0); nothing checks that the generator produced two
      rooms. */
  function Generate(d: Dungeon): (w: World)
    ensures w.dungeon == d
    ensures forall i :: FirstWithId(d.rooms, 2, i) ==> w.start == Center(d.rooms[i])
    ensures forall i :: FirstWithId(d.rooms, d.lastRoomId - 1, i) ==> w.end == Center(d.rooms[i])
    ensures (forall i :: 0 <= i < |d.rooms| ==> d.rooms[i].id != 2) ==> w.start == Point(0, 0)
    ensures (forall i :: 0 <= i < |d.rooms| ==> d.rooms[i].id != d.lastRoomId - 1) ==> w.end == Point(0, 0)
  {
    World(d, RoomCenter(d.rooms, 2), RoomCenter(d.rooms, d.lastRoomId - 1))
  }

  /** The generator's own numbering: rooms are listed in creation order with
      ids 2, 3, 4, ... and `lastRoomId` is one past the last id. */
  ghost predicate NumberedInOrder(d: Dungeon)
  {
    && d.lastRoomId == |d.rooms| + 2
    && forall i :: 0 <= i < |d.rooms| ==> d.rooms[i].id == i + 2
  }

  /** Under the generator's numbering the start is the first room's centre
      and the end is the last room's centre; with no rooms both default to
      (0, 0), and with a single room start and end coincide. */
  lemma StartAndEndOfNumberedDungeon(d: Dungeon)
    requires NumberedInOrder(d)
    ensures |d.rooms| >= 1 ==> Generate(d).start == Center(d.rooms[0])
    ensures |d.rooms| >= 1 ==> Generate(d).end == Center(d.rooms[|d.rooms| - 1])
    ensures |d.rooms| == 0 ==> Generate(d).start == Point(0, 0) == Generate(d).end
    ensures |d.rooms| == 1 ==> Generate(d).start == Generate(d).end
  {
    var w := Generate(d);
    var n := |d.rooms|;
    if n >= 1 {
      assert FirstWithId(d.rooms, 2, 0);
      assert FirstWithId(d.rooms, d.lastRoomId - 1, n - 1);
    }
  }

  /** Every room's centre cell lies in the maze and carries the room's id. */
  ghost predicate CentresPainted(d: Dungeon)
    requires WellFormed(d)
  {
    forall i :: 0 <= i < |d.rooms| ==>
      InBounds(d, Center(d.rooms[i])) && d.maze[d.rooms[i].cy][d.rooms[i].cx] == d.rooms[i].id
  }

  /** When room centres are painted with their (positive) ids, the start and
      end points are walkable as soon as the rooms they name exist. */
  lemma StartAndEndWalkable(d: Dungeon)
    requires WellFormed(d) && CentresPainted(d)
    requires forall i :: 0 <= i < |d.rooms| ==> d.rooms[i].id >= 2
    ensures (exists i :: 0 <= i < |d.rooms| && d.rooms[i].id == 2) ==> Walkable(d, Generate(d).start)
    ensures (exists i :: 0 <= i < |d.rooms| && d.rooms[i].id == d.lastRoomId - 1) ==> Walkable(d, Generate(d).end)
  {
    forall id | exists i :: 0 <= i < |d.rooms| && d.rooms[i].id == id
      ensures Walkable(d, RoomCenter(d.rooms, id))
    {
      var k := FirstIndex(d.rooms, id);
      assert FirstWithId(d.rooms, id, k);
    }
  }

  /** The index of the first room carrying `id`. */
  lemma FirstIndex(rooms: seq<Room>, id: int) returns (k: int)
    requires exists i :: 0 <= i < |rooms| && rooms[i].id == id
    ensures FirstWithId(rooms, id, k)
  {
    k := 0;
    while rooms[k].id != id
      invariant 0 <= k < |rooms|
      invariant forall j :: 0 <= j < k ==> rooms[j].id != id
      decreases |rooms| - k
    {
      k := k + 1;
    }
  }
}
