# Dungeon game: shared world, roster and client movement

A multiplayer maze game. A Node server keeps one procedurally generated
dungeon (a grid of cell codes: 0 wall, 1 corridor, 2+ room number), a start
point and an end point. It also keeps a roster of connected players, each an
entry `{playerID, x, y, score}`. The server handles three events:

- `start` admits a player at the start point.
- `disconnect` splices the player's entry out of the roster.
- `player coordinates` overwrites the mover's position. If the new position is
  the end point, the mover scores 10, the dungeon is regenerated, and everyone
  is sent back to the new start.

The browser client fills wall cells black and classifies every non-wall cell
(`maze[y][x] > 0`) by its open neighbours to pick a sprite. Each computed
frame (one whose interval has elapsed) it recomputes four `canMoveX` flags at
the player's cell. Arrow keys, mouse buttons and the up/down taps move the
player one cell when the flag of their own direction is set. The taps on
`#left` and `#right` check the opposite direction's flag instead (see
"## Findings").

Node runs one handler at a time, so every server event is one pure
transition of `Server.State` (world plus roster). The generator's output is
an input: `Generate` takes the dungeon, and a move that reaches the goal
takes the next dungeon as an extra parameter.

Modules:

- `Results`: `Option` and `Result`.
- `Grid`: points, rooms, the dungeon record, bounds, walkability, the four unit steps.
- `WorldStore`: room-centre lookup and start/end derivation.
- `Roster`: admission, the splice-in-a-loop removal, the mover search and the reset.
- `Server`: the handlers as state transitions, and properties that span several events.
- `Tiles`: the neighbour test and the tile classifier.
- `Client`: movement flags, input dispatch, the restart update and the sprite stepper.

The model keeps the code's permissive behaviour:

- A second `start` from the same socket adds a second entry. Nothing rejects the duplicate.
- A move carries no world generation, and nothing checks its target cell.
- A room id that is missing from the generator's output silently yields (0, 0) for the start or the end instead of failing. With a single room, the start and the end are the same cell.

## Model

| member | source | states |
|---|---|---|
| Grid.CellOpen | public/DungeonClient.js:135-146 | `maze[y][x] > 0` on an existing row holds exactly when (x, y) is in bounds and not a wall; an index outside the row reads `undefined`, which is never positive |
| Grid.StepTo | public/DungeonClient.js:558-596 | each of `left`/`right`/`up`/`down` changes exactly one coordinate, by exactly 1, in its own direction, and leaves the other coordinate alone |
| Grid.StepThenOppositeIsIdentity | public/DungeonClient.js:558-596 | a step followed by the opposite step returns to the starting cell |
| Grid.StepsAreDistinct | public/DungeonClient.js:558-596 | a step always leaves the cell, and the four directions lead to four different cells |
| WorldStore.RoomCenter | DungeonServer.js:289-304 | the result is the centre of the first room whose id equals the requested one, and (0, 0) when no room has that id |
| WorldStore.Generate | DungeonServer.js:313-323 | the start is the centre of the first room with id 2 and the end the centre of the first room with id `_lastRoomId - 1`; either one is (0, 0) when that room is missing |
| WorldStore.StartAndEndOfNumberedDungeon | DungeonServer.js:321-322 | when rooms are numbered 2, 3, ... in order, the start is the first room's centre and the end is the last room's centre; with no rooms both are (0, 0), and with one room they coincide |
| WorldStore.StartAndEndWalkable | DungeonServer.js:321-322 | if each room's centre cell holds that room's id, the start and end are walkable whenever the rooms they name exist |
| WorldStore.FirstIndex | DungeonServer.js:295-301 | when some room has the id, the lookup loop stops at the first such room |
| Roster.Admit | DungeonServer.js:144-154 | admission appends exactly one entry: the socket id, the start point and score 0; earlier entries are unchanged |
| Roster.AdmitAddsOneEntry | DungeonServer.js:144-154 | admission adds one more entry for the socket even if it already has one, because there is no duplicate check |
| Roster.AdmitUniqueness | DungeonServer.js:144-154 | on a roster with unique ids, admission keeps the ids unique exactly when the socket had no entry |
| Roster.DisconnectLoop | DungeonServer.js:181-188 | the forward loop with in-place `splice` computes the skip-after-removal result: every entry for the socket is dropped except one that directly follows a removed entry |
| Roster.SkipRemoveKeepsOthers | DungeonServer.js:183-187 | whatever the duplicates, the loop keeps every other socket's entry in order; it removes at least one entry for the socket when there is one, and changes nothing when there is none |
| Roster.SkipRemoveIsFilter | DungeonServer.js:183-187 | unless two entries for the socket are neighbours, the loop returns exactly the entries of the other sockets, in order |
| Roster.AdjacentPairSurvives | DungeonServer.js:183-187 | two neighbouring entries for the socket always leave one entry for it behind |
| Roster.DisconnectClearsIff | DungeonServer.js:183-187 | the loop removes every entry for the socket if and only if no two of them are neighbours |
| Roster.DisconnectUnique | DungeonServer.js:183-187 | with unique ids, a disconnect removes only that socket's entry, keeps the rest in order, leaves ids unique, and is a no-op for an unknown socket |
| Roster.AdjacentDuplicateSurvives | DungeonServer.js:183-187 | when the first entry for the socket sits at index i, the entry behind it ends up at index i of the result without being compared; when it is a duplicate, the socket keeps an entry after the disconnect |
| Roster.AdmitThenDisconnect | DungeonServer.js:136-188 | admitting a socket that has no entry yet and then disconnecting it gives back the original roster, whatever duplicates other sockets have |
| Roster.LastIndexOf | DungeonServer.js:198-207 | the mover is the last entry carrying the socket id, and there is none exactly when the socket has no entry |
| Roster.FindMover | DungeonServer.js:203-207 | the forward search loop never breaks, so a later match overrides an earlier one and it returns the last match |
| Roster.MoverIsUnique | DungeonServer.js:203-207 | with unique ids, the mover is the socket's only entry |
| Roster.ResetAll | DungeonServer.js:223-226 | every entry moves to the given point; ids, scores and roster length are unchanged |
| Server.Init | DungeonServer.js:331-335 | at start-up the world is generated once and the roster is empty |
| Server.OnStart | DungeonServer.js:136-154 | the `start` handler leaves the world alone and appends one entry at the world's start with score 0; the socket's entry count goes up by one |
| Server.OnDisconnect | DungeonServer.js:181-188 | the `disconnect` handler leaves the world alone and drops no other socket's entry; it lowers the socket's entry count if it had entries, and changes nothing otherwise |
| Server.OnCoordinates | DungeonServer.js:196-237 | the move fails exactly when the socket has no entry. Otherwise the mover is the last matching entry and roster length and ids are unchanged. Off the goal, only the mover's position changes, to the reported cell, unchecked, and the world is unchanged. On the pre-regeneration end point, the world is regenerated, every entry moves to the new start, only the mover gains 10, and the new start is broadcast |
| Server.Step | DungeonServer.js:196-211 | a move from an unknown socket leaves the state untouched; no event adds more than one entry |
| Server.MoveAfterDisconnect | DungeonServer.js:181-211 | a move that arrives after its socket disconnected fails if and only if no two of that socket's entries were neighbours |
| Server.MoveAfterDisconnectUnique | DungeonServer.js:181-211 | with unique ids, a move after disconnect always fails, and the other players' entries survive in order |
| Server.MoveAfterStart | DungeonServer.js:136-211 | right after `start`, a move off the goal succeeds and moves the newly appended entry, not an older duplicate; the older entries stay as they were |
| Server.StepKeepsIdsUnique | DungeonServer.js:136-211 | unique ids survive every event except a `start` from a socket that already has an entry |
| Server.MoveNeverLowersScores | DungeonServer.js:214-226 | a move never lowers a score and raises any one score by at most 10 |
| Server.FirstGoalScenario | DungeonServer.js:144-237 | on a new server, one admitted player who walks onto the end point ends with score 10, on the new world's start, and that start is the broadcast restart point |
| Tiles.Neighbours | public/DungeonClient.js:127-146 | with the source's one-sided guards, a direction is open exactly when the neighbour in that direction is in `[0,w)x[0,h)` and not a wall; only the cell's own row has to exist |
| Tiles.ExitsOf | public/DungeonClient.js:149-203 | each of the eleven tile names stands for one set of open directions, with at least two of them open |
| Tiles.Classify | public/DungeonClient.js:119-204 | tiles are always 16x16. The name is empty, at sheet (0, 0), exactly when fewer than two directions are open. Otherwise the name stands for exactly the open directions, so a three-open case is never taken for a corridor. Corner, wall and all-exits tiles sit in the 3x3 block at 0/16/32 given by their walls; the corridors sit at (144, 16) and (112, 32) |
| Tiles.NamesAreReachable | public/DungeonClient.js:149-203 | every tile name is produced by exactly its own exits: no branch is shadowed by an earlier one |
| Tiles.ClassifyInjective | public/DungeonClient.js:149-203 | two different sets of exits, each with at least two open, get different tile names |
| Tiles.IdentifySpaceType | public/DungeonClient.js:117-205 | the tile of a cell is 16x16 and empty exactly when fewer than two neighbours are open; otherwise its name lists exactly the walkable neighbours |
| Client.MovementFlags | public/DungeonClient.js:494-513 | each flag, as a computed frame sets it, holds exactly when the neighbour in that direction is in bounds and not a wall, the same test `identifySpaceType` applies |
| Client.StepOf | public/DungeonClient.js:261-339 | only key codes 37 to 40 call a step function; every mouse button or tap calls the step of its own button |
| Client.Handle | public/DungeonClient.js:261-339 | a key or mouse input steps in its direction exactly when that direction's flag is set; a tap on `#right` or `#left` is gated by the opposite direction's flag |
| Client.HandleCorrected | public/DungeonClient.js:317-327 | with each tap gated by its own direction's flag, every input steps exactly when its own flag is set; keys and mouse behave as in `Handle` |
| Client.KeyAndMouseStepsAreSafe | public/DungeonClient.js:261-313 | with flags computed at the current cell, a key or mouse input moves exactly when the target cell is walkable, so it never moves into a wall or off the grid |
| Client.CrossedTapEntersWall | public/DungeonClient.js:317-327 | in the maze `1 1 0`, a tap on `#right` from the middle cell steps onto the wall |
| Client.CrossedTapLeavesMaze | public/DungeonClient.js:317-327 | in the maze `1 1`, a tap on `#right` from the right-hand cell steps off the grid |
| Client.CorrectedStepsAreSafe | public/DungeonClient.js:261-339 | with corrected tap gates, every input moves exactly when its target cell is walkable |
| Client.InitialFlagsGateNothing | public/DungeonClient.js:208-211 | with the flags the page starts with, every input that names a step takes it, whatever lies in that direction |
| Client.EarlyInputLeavesRows | public/DungeonClient.js:208-211 | in the maze `1 1`, an up-arrow from (1, 0) before the first computed frame moves the player to (1, -1), where the `canMoveLeft` guard passes and the next computed frame indexes the missing row -1 |
| Client.Apply | public/DungeonClient.js:261-339 | one input, with flags fresh, either leaves the player in place or takes the step it names, and keeps the row in range |
| Client.Run | public/DungeonClient.js:491-513 | over any run of inputs with a frame between them, the row stays in range, so the flag computation never indexes a missing row, even though taps can leave the columns |
| Client.RunCorrected | public/DungeonClient.js:261-339 | with corrected tap gates, a run of inputs either leaves the player where it started or ends on a walkable cell |
| Client.RunWithoutTapsIsCorrect | public/DungeonClient.js:261-313 | a run without taps ends in the same place under the as-written and the corrected handlers |
| Client.OnRestart | public/DungeonClient.js:235-239 | `player restart` moves the client's record to the broadcast point and keeps its id and score |
| Client.RestartAgreesWithServer | DungeonServer.js:222-237 | after a goal, a client that applies the broadcast restart point stands where the server put every roster entry: the new world's start |
| Client.SpriteTick | public/DungeonClient.js:475-489 | the counter rises by one, and the frame offset advances only on every tenth cycle; from offset 0 it stays on 0, 546, 1092 or 1638 |
| Client.FrameCycle | public/DungeonClient.js:481-489 | the frame offsets form one cycle of four distinct values |

## Left out

- Socket transport: `emit`, broadcast and the `dungeon data` push on connection are not modelled. The 500 ms ticker is left out too; it only sends the roster as it is.
- Database: every MySQL query is left out, including the insert on `start`, the score update and the top-3 queries. The in-memory score is the one modelled. The query callback at DungeonServer.js:259 later overwrites it with the stored value, and that is not modelled.
- Maze generator: the external library is foreign code. Its output (maze, size, rooms, `_lastRoomId`) is a parameter of `Generate` and of the goal move.
- Rendering: canvas drawing, image loading, DOM updates and the `requestAnimationFrame` fps timing are left out. They are presentation, and the timing is floating-point.
- Client handlers that only copy a message into a variable (`dungeon data`, `player`, `update`, `update score`, `highscore`) are left out. They assign received data and decide nothing.
- What happens to the Node process after a move from an unknown socket is not modelled. The handler throws a TypeError before it changes anything; the model returns `Err(UnknownPlayer)` and keeps the state.
- JavaScript loose equality is not modelled: coordinates are integers. A string coordinate in the move payload would still compare equal to the end point but be stored as a string.
- Client.Run: computes fresh flags before every input, including the first. The source sets all four flags to true on load (DungeonClient.js:208-211) and refreshes them only in a frame whose interval has elapsed (DungeonClient.js:373). So inputs before the first computed frame are ungated, as `Client.InitialFlagsGateNothing` and `Client.EarlyInputLeavesRows` show. Two inputs in the same frame both use flags from the earlier cell. The row bound that `Client.Run` proves covers neither case.
- Tiles.Neighbours: requires the cell's own row to exist. For a missing row the source throws a TypeError on `undefined[x]` as soon as one of the column guards `x - 1 >= 0` or `x + 1 < w` passes, which always happens once `w >= 2`. That error is not modelled.
- Client.MovementFlags: requires the player's row to exist, for the same reason. `Client.Run` shows the row stays in range under fresh flags.
- WorldStore.StartAndEndWalkable: states walkability only under the assumption that the generator writes each room's id into its centre cell. The generator is not part of this model, so that assumption cannot be checked here.

## Findings

| source | as written | input that shows it | evidently intended | confidence | as-written member | corrected member |
|---|---|---|---|---|---|---|
| public/DungeonClient.js:317-327 | a tap on `#right` is gated by `canMoveLeft` and a tap on `#left` by `canMoveRight` | one-row maze `1 1 0`, player on column 1: the left neighbour is open, so a tap on `#right` moves the player onto the wall in column 2 | each tap gated by the flag of the direction it steps in, as the key and mouse handlers are | not executed; high | Client.CrossedTapEntersWall | Client.HandleCorrected |
