# 2048: move engine and game session

This project is a Dafny model of the core of a small 2048 web game. It has two parts.

- **The move engine** (`src/game/2048/logic.ts`) takes a board and a direction. It checks that the board is rectangular. It rotates the board counter-clockwise so that the requested direction becomes "left", collapses every row to the left, and rotates back. It reports the new board, whether anything moved, and the points gained. A row collapses in one left-to-right fold: empty cells are skipped, two equal neighbouring tiles merge into one tile of twice the value, and a merged tile never merges again in the same move.
- **The session** (`src/hooks/useGame.ts`) keeps the `map` and `over` state of one game. It builds an empty board and lists its empty cells in row-major order. It spawns a 2 or a 4 on a random empty cell, and starts a game with two spawned tiles on a 4 x 4 board. A move is ignored once the game is over or when nothing moved. Otherwise a tile is spawned, and the game ends as soon as a 128 tile is on the board.

The Dafny modules follow that structure:

| module | file | models |
|---|---|---|
| `Board` | `board.dfy` | cells (`Option<int>`, `None` is `null`), boards, columns, the total tile value of a board |
| `Rotation` | `rotation.dfy` | `rotateMapCounterClockwise` |
| `RowCollapse` | `row_collapse.dfy` | `moveRowLeft`, together with a reference definition of the collapse: compact the values, then merge greedily |
| `MoveEngine` | `move_engine.dfy` | `validateMapIsNByM`, `moveLeft`, `moveMapIn2048Rule`, the two degree tables |
| `Session` | `session.dfy` | `createEmptyMap`, `getEmptyCells`, `spawnRandomTile`, `initMap`, `has128`, and the game state as the class `Game` with `DoMove` and `Reset` |

The source has two ways to fail, and `MoveMapIn2048Rule` returns each one as an explicit `Failure`.

- `NotNByM` is the explicit "Map is not N by M" error, raised for a board whose rows differ in length.
- `NoFirstRow` is the run-time error of reading `map[0].length` on a board with no rows. It happens in two cases:
  - validating an empty board;
  - rotating back the empty result that a quarter turn makes of an N x 0 board, which a move up or down runs into.

Moving left or right on an N x 0 board succeeds.

The random draws of `spawnRandomTile` become two parameters: the index into the list of empty cells (`pick`) and the tile value (`value`, either 2 or 4).

Collapsing a row twice need not be a no-op: `[2, 2, 4]` collapses to `[4, 4, null]`, and a second collapse gives `[8, null, null]`. Only merges *within one move* do not cascade. `RowCollapse.NoCascade` and `RowCollapse.TwoPairs` prove that a merged tile does not merge again in the same move. `RowCollapse.SecondMoveMayMerge` proves the example above. `RowCollapse.MoveRowLeftTwice` characterises exactly when a second collapse leaves the row unchanged.

## Model

| member | source | states |
|---|---|---|
| Rotation.Rotate | src/game/2048/logic.ts:34-67 | a quarter or three-quarter turn of an n x m grid is m x n; no turn and a half turn keep n x m |
| Rotation.Inverse | src/game/2048/logic.ts:104-116 | the returned angle completes a full turn with the given one |
| Rotation.RotateInverse | src/game/2048/logic.ts:34-67 | rotating by an angle and then by its inverse gives back the board (quarter turns need at least one column) |
| Rotation.RotateQuarterBack | src/game/2048/logic.ts:44-50 | the 270 case undoes the 90 case |
| Rotation.RotateThreeQuartersBack | src/game/2048/logic.ts:59-65 | the 90 case undoes the 270 case |
| Rotation.RotateHalfInvolution | src/game/2048/logic.ts:51-58 | the 180 case is its own inverse |
| Rotation.RotateConservesMass | src/game/2048/logic.ts:34-67 | rotation keeps the sum of all tile values |
| Rotation.RotateKeepsPositive | src/game/2048/logic.ts:34-67 | a rotated board holds only cells of the original board, so positive tiles stay positive |
| RowCollapse.MoveRowLeft | src/game/2048/logic.ts:77-102 | the result row has the input's length, and `isMoved` holds exactly when the result differs from the input |
| RowCollapse.ReduceIsMerge | src/game/2048/logic.ts:78-96 | the fold's finalized values plus its pending cell are the greedy pairwise merge of the row's present values, and its gain is the merge's gain |
| RowCollapse.MoveRowLeftIsReference | src/game/2048/logic.ts:77-102 | the result row is the merged values followed by `null`s, and the gain is the sum of the merged tiles |
| RowCollapse.MoveRowLeftPacked | src/game/2048/logic.ts:98-99 | in the result row, no tile comes after an empty cell |
| RowCollapse.MoveRowLeftConservesMass | src/game/2048/logic.ts:84-92 | the result row has the same tile sum as the input row |
| RowCollapse.MoveRowLeftGain | src/game/2048/logic.ts:84-90 | with positive tiles the gain is at least 0, and it is 0 exactly when no two consecutive present values are equal |
| RowCollapse.MoveRowLeftStable | src/game/2048/logic.ts:98-101 | a row does not move exactly when it is already packed to the left and no two consecutive present values are equal |
| RowCollapse.MoveRowLeftTwice | src/game/2048/logic.ts:77-102 | a collapsed row stays put under a second collapse exactly when its merged values have no equal neighbours |
| RowCollapse.MergeLength | src/game/2048/logic.ts:84-92 | merging keeps at least half of the values and never adds any |
| RowCollapse.MergeSum | src/game/2048/logic.ts:84-90 | merging keeps the sum of the values |
| RowCollapse.MergeNoNeighbours | src/game/2048/logic.ts:91-93 | without equal neighbours, merging changes nothing and gains nothing |
| RowCollapse.MergeShrinks | src/game/2048/logic.ts:84-90 | with two equal neighbours, merging makes the values strictly fewer |
| RowCollapse.MergeGainSign | src/game/2048/logic.ts:84-90 | with positive values, the gain is at least 0, and it is positive exactly when two neighbours are equal |
| RowCollapse.RowMassIsSum | src/game/2048/logic.ts:80-81 | the tile sum of a row is the sum of its present values |
| RowCollapse.CompactPad | src/game/2048/logic.ts:99 | padding values with `null`s and dropping the `null`s again gives back the values |
| RowCollapse.PackedIsPad | src/game/2048/logic.ts:99 | a row packed to the left is its own values padded with `null`s |
| RowCollapse.NoCascade | src/game/2048/logic.ts:84-90 | `[4, 2, 2, null]` becomes `[4, 4, null, null]`, moved, gain 4: the new 4 does not merge with the old one |
| RowCollapse.TwoPairs | src/game/2048/logic.ts:84-90 | `[2, 2, 2, 2]` becomes `[4, 4, null, null]`, moved, gain 8 |
| RowCollapse.GapMerges | src/game/2048/logic.ts:80-90 | `[2, null, 2, null]` becomes `[4, null, null, null]`, moved, gain 4 |
| RowCollapse.EmptyRowStays | src/game/2048/logic.ts:80-81 | an all-empty row stays the same, is not moved and gains 0 |
| RowCollapse.SecondMoveMayMerge | src/game/2048/logic.ts:77-102 | `[2, 2, 4]` collapses to `[4, 4, null]`, which collapses again to `[8, null, null]` with gain 8 |
| MoveEngine.ValidateMapIsNByM | src/game/2048/logic.ts:29-32 | true exactly when all rows have the same length |
| MoveEngine.MoveLeft | src/game/2048/logic.ts:69-75 | keeps the length of the board and of every row; `isMoved` holds exactly when some row changed |
| MoveEngine.MoveLeftAggregates | src/game/2048/logic.ts:70-73 | the board moved exactly when some row moved, and its points are the sum over all rows of the tiles their merges create |
| MoveEngine.MoveMapIn2048Rule | src/game/2048/logic.ts:12-27 | fails with `NotNByM` exactly on a non-empty, non-rectangular board; fails with `NoFirstRow` exactly on an empty board or when a quarter turn meets an N x 0 board; otherwise the result has the input's dimensions |
| MoveEngine.DegreeTablesInverse | src/game/2048/logic.ts:104-116 | for every direction, the revert table undoes the rotate table |
| MoveEngine.MoveReportsChange | src/game/2048/logic.ts:12-27 | a successful move reports `isMoved` exactly when the board changed |
| MoveEngine.MoveLeftRows | src/game/2048/logic.ts:12-27 | moving left collapses each row on its own |
| MoveEngine.MoveRightRows | src/game/2048/logic.ts:12-27 | moving right collapses each row read from the right, and writes it back right-aligned |
| MoveEngine.MoveUpColumns | src/game/2048/logic.ts:12-27 | moving up collapses each column read from the top |
| MoveEngine.MoveDownColumns | src/game/2048/logic.ts:12-27 | moving down collapses each column read from the bottom, and writes it back bottom-aligned |
| MoveEngine.MoveConservesMass | src/game/2048/logic.ts:12-27 | a successful move in any direction keeps the sum of all tile values |
| MoveEngine.MoveLeftConservesMass | src/game/2048/logic.ts:69-75 | collapsing all rows keeps the sum of all tile values |
| MoveEngine.MoveGainNonNegative | src/game/2048/logic.ts:12-27 | with positive tiles, a successful move never gains a negative amount |
| MoveEngine.MoveLeftGainNonNegative | src/game/2048/logic.ts:69-75 | with positive tiles, the summed gain of all rows is at least 0 |
| MoveEngine.LeftRightSymmetry | src/game/2048/logic.ts:104-116 | moving the mirrored board right gives the mirror image of the board from moving left, and the same `isMoved` and `gained` |
| MoveEngine.UpDownSymmetry | src/game/2048/logic.ts:104-116 | moving the upside-down board down gives the upside-down board of moving up, and the same `isMoved` and `gained` |
| MoveEngine.LoneTileMovesUp | src/game/2048/logic.ts:12-27 | a lone 2 in the bottom-left corner of a 4 x 4 board moves to the top-left corner on a move up, moved, gain 0 |
| Session.CreateEmptyMap | src/hooks/useGame.ts:12-13 | the board has the requested rows and columns, and every cell is empty |
| Session.EmptyCells | src/hooks/useGame.ts:15-23 | every listed position is an empty cell within the first row's width |
| Session.GetEmptyCells | src/hooks/useGame.ts:15-23 | the nested loops return exactly `EmptyCells` |
| Session.EmptyCellsExact | src/hooks/useGame.ts:15-23 | a position is listed exactly when it is an empty cell within the width of row 0, and the list is in strict row-major order (so each cell is listed once) |
| Session.EmptyMapCount | src/hooks/useGame.ts:12-23 | a fresh rows x cols board, of any size, has rows * cols empty cells |
| Session.SpawnRandomTile | src/hooks/useGame.ts:25-34 | returns the board `SpawnTile` describes for the given draws |
| Session.SpawnTileEffect | src/hooks/useGame.ts:25-34 | with no empty cell the board is returned as it is; otherwise the chosen empty cell gets the value, every other cell and every dimension stay, and one empty cell fewer is left |
| Session.SpawnOnFullBoard | src/hooks/useGame.ts:26-27 | a board without empty cells is returned as it is, whatever the draws |
| Session.InitMap | src/hooks/useGame.ts:36-41 | the board is 4 x 4 and holds two tiles, each 2 or 4, on two different cells, and nothing else |
| Session.RowHas128 | src/hooks/useGame.ts:44 | true exactly when some cell of the row is 128 |
| Session.Has128 | src/hooks/useGame.ts:43-44 | true exactly when some cell of the board is 128 |
| Session.StartBoardBelow128 | src/hooks/useGame.ts:36-44 | a starting board holds no 128 |
| Session.GridMoves | src/hooks/useGame.ts:70 | on a 4 x 4 board a move in any direction succeeds and returns a 4 x 4 board |
| Session.Game.constructor | src/hooks/useGame.ts:58-59 | the game starts from a start board, with `over` false, and the board is 4 x 4 |
| Session.Game.DoMove | src/hooks/useGame.ts:67-77 | the board stays 4 x 4 and `over` stays equivalent to a 128 being on the board; a finished game or a move that moves nothing changes nothing; otherwise the board is the moved board with one spawned tile, and `over` says whether it holds a 128 |
| Session.Game.Reset | src/hooks/useGame.ts:97-101 | the board is a fresh start board and `over` is false |

## Left out

- Restoring the state from `localStorage` and saving it after every change (`src/hooks/useGame.ts:48-65`) is not modelled: it is I/O and JSON parsing. So a game always starts from `initMap`.
- The keyboard listener (`src/hooks/useGame.ts:79-95`) is not modelled, because it is browser event handling. It only maps arrow keys to `doMove`.
- React's `useState`, `useCallback` and `useMemo` are not modelled. A state setter is an assignment to a field of `Game`, and the re-rendering that follows it is left out.
- `Math.random` (`src/hooks/useGame.ts:29-30`) becomes the parameters `pick` and `value`. The 90 %/10 % split between 2 and 4 is not modelled, only that the value is 2 or 4.
- Session.SpawnRandomTile: requires `pick` to index the list of empty cells when that list is not empty. `Math.floor(Math.random() * empty.length)` always does.
- Session.Game.DoMove: requires the session invariant `Valid()`: the board is 4 x 4, and `over` holds exactly when a 128 is on the board. The source keeps both, because `initMap` places only 2s and 4s and `doMove` sets `over` exactly when the spawned board holds a 128. On a 4 x 4 board `moveMapIn2048Rule` cannot throw, so the exception path of `doMove` is not modelled.
- The default arguments `rows = 4, cols = 4` of `createEmptyMap` (`src/hooks/useGame.ts:12`) are not modelled: `CreateEmptyMap` takes both sizes explicitly. The only call (`src/hooks/useGame.ts:37`) passes `4, 4`.
- Tile values are unbounded integers. JavaScript's floating-point numbers, `NaN` and non-integer tiles are not modelled.
- Sparse rows (holes reading as `undefined`) are not modelled. A row is a sequence of cells, each either a number or `null`.
- The `0` case of `rotateMapCounterClockwise` returns the same array object. Object identity and aliasing are not modelled, because boards are values.
- `src/App.tsx` and the rest of the user interface are not part of this model.
