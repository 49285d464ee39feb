/**
 * The client's tile classifier: which of the four neighbours of a cell can
 * be entered, and which sprite of the tile sheet that combination selects.
 */
module Tiles {
  import opened Results
  import opened Grid

  /** Which neighbours are open (`canMoveUp`, `canMoveRight`, ...). */
  datatype Exits = Exits(up: bool, right: bool, down: bool, left: bool)

  function Open(e: Exits, dir: Dir): bool
  {
    match dir
    case Up => e.up
    case Right => e.right
    case Down => e.down
    case Left => e.left
  }

  function OpenCount(e: Exits): nat
  {
    (if e.up then 1 else 0) + (if e.right then 1 else 0) + (if e.down then 1 else 0) + (if e.left then 1 else 0)
  }

  /** The neighbour test of the client, written with the source's one-sided
      guards: only `x - 1 >= 0`, `x + 1 < w`, `y - 1 >= 0` and `y + 1 < h`
      are checked before indexing. Only the cell's own row must exist; a
      column outside the row reads `undefined`, which is never `> 0`. */
  function Neighbours(d: Dungeon, p: Point): (e: Exits)
    requires WellFormed(d) && 0 <= p.y < d.h
    ensures forall dir :: Open(e, dir) <==> Walkable(d, StepTo(p, dir))
  {
    Exits(
      up := p.y - 1 >= 0 && CellOpen(d, p.x, p.y - 1),
      right := p.x + 1 < d.w && CellOpen(d, p.x + 1, p.y),
      down := p.y + 1 < d.h && CellOpen(d, p.x, p.y + 1),
      left := p.x - 1 >= 0 && CellOpen(d, p.x - 1, p.y))
  }

  /** What `identifySpaceType` returns: a tile name and the part of the
      tile sheet to draw. */
  datatype Tile = Tile(spaceType: string, tilesetX: int, tilesetY: int, tilesizeX: int, tilesizeY: int)

  /** Edge length of every sprite on the tile sheet. */
  const TileSize := 16

  /** The tile sheet's nine-slice block: a column 0/16/32 for a wall on the
      left/neither/right side, a row 0/16/32 for a wall above/neither/below. */
  function NineSliceX(e: Exits): int
  {
    TileSize + (if e.left then 0 else -TileSize) + (if e.right then 0 else TileSize)
  }

  function NineSliceY(e: Exits): int
  {
    TileSize + (if e.up then 0 else -TileSize) + (if e.down then 0 else TileSize)
  }

  /** The eleven tile names paired with the exits each one stands for. */
  function ExitsOf(spaceType: string): (r: Option<Exits>)
    ensures r.Some? ==> OpenCount(r.value) >= 2
  {
    match spaceType
    case "all_exits" => Some(Exits(true, true, true, true))
    case "left_wall" => Some(Exits(true, true, true, false))
    case "up_wall" => Some(Exits(false, true, true, true))
    case "right_wall" => Some(Exits(true, false, true, true))
    case "down_wall" => Some(Exits(true, true, false, true))
    case "vertical_corridor" => Some(Exits(true, false, true, false))
    case "horizontal_corridor" => Some(Exits(false, true, false, true))
    case "bottom_right" => Some(Exits(true, false, false, true))
    case "bottom_left" => Some(Exits(true, true, false, false))
    case "top_right" => Some(Exits(false, false, true, true))
    case "top_left" => Some(Exits(false, true, true, false))
    case _ => None
  }

  /** The if/else-if chain of `identifySpaceType`: the first branch whose
      directions are all open wins; with fewer than two open directions no
      branch fires and the default (empty name, sheet origin) is returned. */
  function Classify(e: Exits): (t: Tile)
    ensures t.tilesizeX == TileSize && t.tilesizeY == TileSize
    ensures t.spaceType == "" <==> OpenCount(e) < 2
    ensures t.spaceType == "" ==> t.tilesetX == 0 && t.tilesetY == 0
    ensures OpenCount(e) >= 2 ==> ExitsOf(t.spaceType) == Some(e)
    ensures OpenCount(e) >= 2 && t.spaceType != "vertical_corridor" && t.spaceType != "horizontal_corridor" ==>
      t.tilesetX == NineSliceX(e) && t.tilesetY == NineSliceY(e)
    ensures t.spaceType == "vertical_corridor" ==> t.tilesetX == 144 && t.tilesetY == 16
    ensures t.spaceType == "horizontal_corridor" ==> t.tilesetX == 112 && t.tilesetY == 32
  {
    var up, right, down, left := e.up, e.right, e.down, e.left;
    if up && right && down && left then Tile("all_exits", 16, 16, 16, 16)
    else if up && right && down then Tile("left_wall", 0, 16, 16, 16)
    else if right && down && left then Tile("up_wall", 16, 0, 16, 16)
    else if down && left && up then Tile("right_wall", 32, 16, 16, 16)
    else if left && up && right then Tile("down_wall", 16, 32, 16, 16)
    else if up && down then Tile("vertical_corridor", 144, 16, 16, 16)
    else if left && right then Tile("horizontal_corridor", 112, 32, 16, 16)
    else if up && left then Tile("bottom_right", 32, 32, 16, 16)
    else if up && right then Tile("bottom_left", 0, 32, 16, 16)
    else if down && left then Tile("top_right", 32, 0, 16, 16)
    else if down && right then Tile("top_left", 0, 0, 16, 16)
    else Tile("", 0, 0, 16, 16)
  }

  /** Every tile name is reached from exactly the exits it stands for: no
      branch of the chain is shadowed by an earlier one. */
  lemma NamesAreReachable(spaceType: string)
    requires ExitsOf(spaceType).Some?
    ensures Classify(ExitsOf(spaceType).value).spaceType == spaceType
  {
  }

  /** Distinct combinations with at least two exits get distinct tiles. */
  lemma ClassifyInjective(a: Exits, b: Exits)
    requires OpenCount(a) >= 2 && OpenCount(b) >= 2 && a != b
    ensures Classify(a).spaceType != Classify(b).spaceType
  {
    assert ExitsOf(Classify(a).spaceType) == Some(a);
    assert ExitsOf(Classify(b).spaceType) == Some(b);
  }

  /** `identifySpaceType(x, y)`: classify a cell by its open neighbours. */
  function IdentifySpaceType(d: Dungeon, p: Point): (t: Tile)
    requires WellFormed(d) && 0 <= p.y < d.h
    ensures t.tilesizeX == TileSize && t.tilesizeY == TileSize
    ensures t.spaceType == "" <==> OpenCount(Neighbours(d, p)) < 2
    ensures t.spaceType != "" ==>
      (ExitsOf(t.spaceType).Some? &&
       forall dir :: Open(ExitsOf(t.spaceType).value, dir) <==> Walkable(d, StepTo(p, dir)))
  {
    Classify(Neighbours(d, p))
  }
}
