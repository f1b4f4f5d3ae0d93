# 2048 game core, modelled in Dafny

This project models the game logic of the browser 2048 game in `main.js`.
The game state object holds:

- the action counter `nAction`;
- the 4x4 board `tiles`, indexed `tiles[x][y]`, where a cell is `null` or a tile number;
- the element id counter and the list of handed-out ids;
- the list of animation records (`add`, `move`, `merge`) that the page plays
  to show how the board got there.

The model covers these operations:

- `newEmptyTiles`;
- `newElementId`, `addTile`, `moveTile` and `mergeTile`;
- `addRandomTile`, with its two `Math.random()` results as parameters;
- `newGameState`;
- `slide`, including its nested `getX`/`getY`, `slideRow`, `copy`, `move`, `merge` and the shared `canSlide` flag;
- the sequencer `stateFrame` with its returned stepping function `frame(i)`.

Files:

- `tiles.dfy` (module `Tiles`): cells, boards, directions and the
  `getX`/`getY` scan remapping. It also holds tile totals and the list of
  free cells.
- `rows.dfy` (module `Rows`): the scan of one row, `slideRow`'s loop,
  written as a fold of one `Step` per scan position. Each step emits move
  (`MoveOp`) and merge (`MergeOp`) events. This module proves compaction,
  conservation and merge-once.
- `events.dfy` (module `Events`): animation records and element ids.
- `engine.dfy` (module `Engine`): the whole-board slide, built from the four
  row scans through the remapping. It also derives the animation records
  they emit.
- `spawn.dfy` (module `Spawn`): which free cell and which number
  `addRandomTile` picks, and the opening deal.
- `game.dfy` (module `Game`): the class `GameState`, whose methods update
  its fields in place as the source does. `Slide` is proved equal to the
  value-level definitions above, and so are its helper methods: the
  per-tile steps with a `merged` array, the backward target search, and
  row-by-row writes into `newState`.
- `sequencer.dfy` (module `Sequencer`): `stateFrame`'s loops as methods
  proved against functions, and `frame(i)` as a function.
  - The loops group the records, mark the animated cells and classify
    the occupied cells.
  - `frame(i)` returns which cell groups are settled at `i`
    (`tileAnimationDone`), which records `animationFrame` shows and hides,
    and whether the animation is done.

How the model represents the source:

- Randomness: each `Math.random()` result is a `real` parameter in
  [0, 1), and the draws are turned into a choice as the source does, in
  exact real arithmetic:
  - the cell is the index the draw scaled by the number of free cells
    rounds down to;
  - the number is 4 when the draw scaled by ten rounds down to zero, and 2
    otherwise.
- Element ids are kept as the pair (prefix, serial) instead of the
  concatenated string.
- A direction is the datatype `Left | Up | Right | Down`.

## Model

| member | source | states |
|---|---|---|
| Tiles.NewEmptyTiles | main.js:1-8 | a 4x4 board on which every cell is empty |
| Tiles.Put | main.js:37 | the written cell holds the new value and every other cell is unchanged |
| Tiles.RowOf | main.js:91-93 | scan position x of row y reads board cell (getX(x, y), getY(x, y)) |
| Tiles.GetX | main.js:71-78 | definition of getX: the board x of scan position x in row y is x, y, 3 - x, 3 - y for left, up, right, down; always on the board |
| Tiles.GetY | main.js:80-87 | definition of getY: the board y of scan position x in row y is y, x, 3 - y, 3 - x for left, up, right, down; always on the board |
| Tiles.ScanX | main.js:71-87 | the inverse of getX/getY: from a board cell to its scan position and row |
| Tiles.ScanY | main.js:71-87 | the row whose scan visits a board cell; with ScanX it undoes getX/getY |
| Tiles.RemapBijective | main.js:71-87 | for every direction, (getX, getY) is a bijection of {0..3}^2, with ScanX/ScanY as its two-sided inverse, so the four row scans visit every cell exactly once |
| Tiles.SameRowsSameBoard | main.js:136-137 | two boards that agree on all four scan rows of one direction are equal |
| Tiles.RoomWhenNotFull | main.js:32 | a board with fewer than 16 tiles has a free cell |
| Tiles.HasRoom | main.js:32 | definition of what the assertion demands: some cell of the board is free |
| Tiles.DoubleIsPowerOfTwo | main.js:109 | adding two equal tiles (powers of two, at least 2) gives a tile again |
| Tiles.SpawnNumbersValid | main.js:35 | both numbers a spawn can write, 2 and 4, are tiles in that sense |
| Tiles.AvailableStep | main.js:26-30 | one iteration of the collecting loop at (x, y) appends (x, y) exactly when that cell is free |
| Tiles.Available | main.js:25-31 | definition of availablePositions after the first k cells of the x-outer, y-inner scan: the free ones among them, in scan order; at most k of them |
| Tiles.AvailablePositions | main.js:25-31 | definition of availablePositions once the double loop has run over all 16 cells |
| Tiles.AvailableMembers | main.js:25-31 | after the first k cells of the x-outer, y-inner scan, the list holds exactly the free cells among them, each once |
| Tiles.AvailablePositionsSpec | main.js:25-32 | availablePositions holds exactly the free cells, without repeats, and is non-empty exactly when the board has a free cell |
| Rows.Target | main.js:120-122 | the backward search stops at 0 or at an occupied cell, and every cell it stepped over is empty |
| Rows.Step | main.js:113-133 | definition of one iteration of slideRow's loop at scan position x: emptied cell skipped; position 0 copied; otherwise, after the backward search, move to a free target, merge into an equal unmerged target, move next to it, or copy. It changes no later position and only appends events |
| Rows.ScanRow | main.js:112-133 | definition of the loop after positions 0..k-1, starting from an empty row, no merged flags and no events; positions k.. are still empty |
| Rows.SlideRow | main.js:90-134 | definition of slideRow on one row: the loop run over all four positions |
| Rows.Emitted | main.js:113-133 | the events of one iteration are the suffix it adds to the event list, and they name positions of the row |
| Rows.RowCompaction | main.js:112-133 | after the scan, the occupied cells form a prefix of the row and the numbers add up to the source row's |
| Rows.RowCountsMerges | main.js:105-110 | the new row has exactly one tile fewer per merge event |
| Rows.RowMergesOnce | main.js:112-127 | no position receives two merges, and `merged[t]` is true exactly when a merge landed at t |
| Rows.RowEventsFaithful | main.js:99-110 | every move goes backwards, from a tile, carrying its number, onto an occupied cell; every merge directly follows the move onto its cell and records twice the moved number, which that cell then holds |
| Rows.RowUnchangedIffNoEvents | main.js:100-133 | the scan emits no event exactly when the new row equals the source row |
| Rows.RowRoomAfterChange | main.js:113-133 | a scan that emits an event leaves a free cell in its row |
| Rows.StepKeepsPowers | main.js:113-133 | one iteration writes only a source tile or the sum of two equal tiles, so a row of powers of two (at least 2) stays so |
| Rows.ScanKeepsPowers | main.js:112-133 | the loop keeps every tile of the new row a power of two that is at least 2 |
| Rows.RowKeepsPowers | main.js:90-134 | the finished scan of a row of powers of two (at least 2) yields such a row |
| Rows.RowKeepsTile | main.js:99-103 | a scan that emits an event leaves a tile in its row: its first event is a move onto a cell that stays occupied |
| Rows.FourEqualMergePairwise | main.js:121-129 | [2, 2, 2, 2] becomes [4, 4, -, -] with two merges, never one 8 |
| Rows.AdjacentPairMerges | main.js:123-127 | [2, 2, -, -] becomes [4, -, -, -] by one move and one merge |
| Rows.GapPairMerges | main.js:121-127 | [2, -, 2, -] merges across the gap into [4, -, -, -] |
| Rows.PackedRowStays | main.js:128-132 | [2, 4, -, -] is copied unchanged with no event |
| Events.Ids | main.js:43 | `elements` lists the id of every record, in order |
| Events.IdsAppend | main.js:43 | pushing a record appends exactly its id to `elements` |
| Events.NumberedIdsDistinct | main.js:40-45 | ids numbered 1, 2, ... in list order are pairwise distinct |
| Engine.LiftOp | main.js:101-108 | definition of the record a scan event becomes: a move between the remapped board cells of its positions, or a merge at the remapped cell, with the given id serial and its kind's prefix |
| Engine.Lift | main.js:99-110 | definition of the records one slideRow(y) call pushes: its events in order, each lifted by LiftOp, with serials counting on from newState's elementId |
| Engine.RowResult | main.js:90-134 | definition of slideRow(y) on the board: the scan of row y read through getX/getY, whose events are well formed and name row positions |
| Engine.Slid | main.js:63-137 | definition of newState.tiles after the four slideRow calls: each board cell holds the cell its row scan produced at its scan position; a 4x4 board |
| Engine.SlideAnimations | main.js:136-137 | definition of newState.animations after the slideRow calls for rows 0..rows-1: each row's events as records, numbered on from the records before them |
| Engine.Animations | main.js:136-137 | definition of the records of a whole slide, before the spawn: those of all four rows |
| Engine.SlidRow | main.js:90-137 | read in the direction's scan order, row y of the new board is the result of scanning row y |
| Engine.SlideConservesSum | main.js:62-139 | before the spawn, the new board's numbers add up to the old board's |
| Engine.SlideCountsMerges | main.js:105-110 | before the spawn, the new board has the old tile count minus the number of merge records |
| Engine.SlideUnchangedIffNoAnimations | main.js:89-139 | the slide records nothing (canSlide stays false) exactly when the new board equals the old one |
| Engine.SlideLeavesRoom | main.js:136-140 | a slide that recorded anything leaves a free cell, so the spawn's assertion holds |
| Engine.AnimationOrigin | main.js:90-137 | every record comes from one event of one row scan, at the position that row's events start from |
| Engine.AnimationAt | main.js:99-110 | record i carries id i + 1 with its kind's prefix and names board cells; a move starts on the tile it carries and lands on an occupied cell; a merge follows the move onto its cell with twice its number, and the new board holds that number there |
| Engine.SlideAnimationsFaithful | main.js:99-110 | all records of a slide are numbered and faithful in that sense |
| Engine.SlideMergesOnce | main.js:112-127 | no two merge records of one slide name the same cell |
| Engine.SlideKeepsPowers | main.js:90-137 | if every tile of the old board is a power of two at least 2, so is every tile of the slid board |
| Engine.SlideKeepsTile | main.js:99-110 | a slide that records anything leaves at least one tile on the board |
| Spawn.PickIndex | main.js:33 | `Math.floor(u * length)` is a valid index into the list |
| Spawn.PickValue | main.js:35 | the number is 2 or 4, and it is 4 exactly when the draw is below 1/10 |
| Spawn.SpawnPos | main.js:32-34 | the chosen cell is free and is one of the available positions |
| Spawn.Spawned | main.js:33-37 | definition of the board after the spawn: the chosen free cell holds the chosen number |
| Spawn.SpawnRecord | main.js:47-50 | the spawn's record is an add with the `add-tile-` prefix that names a board cell |
| Spawn.SpawnEffect | main.js:24-38 | the spawn writes 2 or 4 into a free cell and nothing else, adding one tile and that number to the sum |
| Spawn.SpawnKeepsPowers | main.js:35-37 | the spawn keeps every tile a power of two that is at least 2 |
| Spawn.EmptyBoard | main.js:1-8 | the empty board has no tiles and a free cell |
| Spawn.TwoSpawns | main.js:19-20 | on a board without tiles, the second spawn still finds room, uses a different cell from the first, and two tiles result |
| Spawn.OpeningBoard | main.js:19-20 | both opening spawns find room and leave exactly two tiles |
| Spawn.OpeningFromSpawns | main.js:10-22 | spawning twice, one after the other, from the empty board gives the opening board and both add records |
| Spawn.OpeningTiles | main.js:10-22 | definition of the board newGameState returns: the two spawns, one after the other, on the empty board |
| Spawn.OpeningRecords | main.js:10-22 | definition of the records newGameState returns: the add records of its two spawns, with serials 1 and 2 |
| Spawn.OpeningDeal | main.js:10-22 | the opening deals two tiles on distinct cells; its two records are adds with ids `add-tile-1` and `add-tile-2` |
| Spawn.OpeningValid | main.js:10-22 | both opening tiles are powers of two that are at least 2 |
| Game.GameState.constructor | main.js:12-18 | the object literal: the given nAction, an empty board, no ids and no records |
| Game.GameState.Valid | main.js:40-45 | definition of the state's bookkeeping: a 4x4 board, the i-th record carrying id serial i with its kind's prefix and naming board cells, the counter equal to the number of records, and `elements` listing every record's id in order |
| Game.GameState.NewElementId | main.js:40-45 | the counter goes up by one, the id carries the new counter, `elements` gains exactly that id, and nothing else changes |
| Game.GameState.AddTile | main.js:47-50 | appends one add record whose id is the next serial; the board and nAction are unchanged |
| Game.GameState.MoveTile | main.js:52-55 | appends one move record whose id is the next serial; the board and nAction are unchanged |
| Game.GameState.MergeTile | main.js:57-60 | appends one merge record whose id is the next serial; the board and nAction are unchanged |
| Game.GameState.CollectAvailable | main.js:25-31 | the nested loop returns exactly the list of free cells in scan order |
| Game.GameState.AddRandomTile | main.js:24-38 | the new board is the old one with the spawn, and exactly one add record is appended |
| Game.NewGameState | main.js:10-22 | a fresh valid state with nAction 0, the opening board (two tiles, each a power of two at least 2) and exactly the two opening add records |
| Game.Copy | main.js:95-97 | copies one cell into newState and records nothing |
| Game.Move | main.js:99-103 | records one move and writes the moved tile at its target |
| Game.Merge | main.js:105-110 | records a move and then a merge of the summed number, and the target holds the sum |
| Game.FindTarget | main.js:120-122 | the in-place search over newState returns the target of the value-level scan |
| Game.SlideSearched | main.js:120-132 | after the search, one of move, merge, move-beside or copy performs the value-level step |
| Game.SlideBlocked | main.js:125-132 | with an occupied target, merges when the numbers are equal and the target is unmerged, and otherwise moves beside it or copies |
| Game.SlideMerge | main.js:125-127 | sets `merged[target]` and merges, as the step does |
| Game.SlideBeside | main.js:128-132 | moves next to the target or copies; the merged flags are unchanged |
| Game.SlideTile | main.js:113-133 | one loop iteration writes newState and `merged` as Step does and appends the lifted events; it reports whether anything moved |
| Game.SlideRow | main.js:90-134 | slideRow(y) writes row y as the scan does, appends that row's records in order, and sets canSlide exactly when the row had an event |
| Game.PartialStep | main.js:136-137 | writing row y's result into the board built from rows 0..y-1 gives the board built from rows 0..y |
| Game.PartialEnds | main.js:136-137 | with no rows written the board is the empty one; with all four it is the slid board |
| Game.Place | main.js:95-109 | definition of newState.tiles after row y's writes: the cells of row y, through getX/getY, hold the row's result and every other cell is unchanged |
| Game.Partial | main.js:136-137 | definition of newState.tiles after the slideRow calls for rows 0..y-1: those rows as in the slid board, the others still empty |
| Game.SlideAllRows | main.js:136-137 | the four slideRow calls build the slid board and its records, and canSlide is true exactly when there is a record |
| Game.Slide | main.js:62-142 | returns null exactly when nothing would move; otherwise a fresh valid state with nAction + 1, the slid board plus one spawn, and the slide's records followed by one add record; the new board holds at least two tiles, and it keeps every tile a power of two at least 2 when the old board did. The input state is not modified |
| Game.AcceptedSlide | main.js:136-141 | after an accepted slide (one that records anything) and its spawn, the board has a free cell for the spawn, holds at least two tiles, and keeps every tile a power of two at least 2 |
| Sequencer.PushSpec | main.js:245 | a push adds the record to its own kind's group only |
| Sequencer.Push | main.js:245 | definition of one push: the record is appended to the group of its own kind, the other groups unchanged |
| Sequencer.KindOf | main.js:245 | definition of the group `animation.operation` selects: add, move or merge |
| Sequencer.Grouped | main.js:243-245 | definition of the groups after pushing the records in list order, each onto the group of its kind |
| Sequencer.GroupedSpec | main.js:243-245 | each group holds exactly the records of its kind, and the group sizes add up to the number of records |
| Sequencer.GroupRecords | main.js:243-245 | the grouping loop computes the grouping function |
| Sequencer.MarkAfter | main.js:247-253 | definition of a cell's mark after the first moves, merges and adds have been marked: add over merge over move, unmarked read as still |
| Sequencer.Unmarked | main.js:247 | the animatedTiles grid before the marking loops: 4x4, every cell unmarked, which reads as still |
| Sequencer.Marks | main.js:247-253 | definition of the mark grid once all three marking loops have run; a 4x4 grid whose every cell holds its final mark |
| Sequencer.Mark | main.js:247-253 | definition of a cell's final mark once all three marking loops have run |
| Sequencer.MarkGroup | main.js:248-253 | one marking loop leaves every cell marked with the latest kind that names it so far |
| Sequencer.MarkTiles | main.js:247-253 | the three marking loops compute the mark grid, in which add beats merge and merge beats move |
| Sequencer.ClassifiedStep | main.js:255-259 | one iteration at (x, y) lists an occupied cell under its mark and skips an empty one |
| Sequencer.Enlist | main.js:258 | one push onto `tileStatus[s]`: the list of s ends with the cell and the other three lists are unchanged |
| Sequencer.Get | main.js:254-293 | definition of `tileStatus[s]`: the list of status s |
| Sequencer.Classified | main.js:254-260 | definition of tileStatus after the first k cells of the x-outer, y-inner scan: each occupied cell listed under its mark |
| Sequencer.ClassifyTiles | main.js:254-260 | the double loop computes the classification function |
| Sequencer.ClassifiedMembers | main.js:254-260 | a cell is in the list of status s exactly when it is occupied and marked s |
| Sequencer.GroupTouches | main.js:243-253 | a group names a cell exactly when some record of its kind does |
| Sequencer.ClassificationPartition | main.js:247-260 | empty cells are in no list; each occupied cell is in exactly one list, chosen as add over merge over move over still |
| Sequencer.ClassificationDistinct | main.js:254-260 | no list names a cell twice |
| Sequencer.FrameOf | main.js:242-260 | definition of what stateFrame computes and its returned function closes over: the groups of the state's records and the classification of the board's occupied cells under the final marks |
| Sequencer.StateFrame | main.js:242-260 | stateFrame computes the groups and the classification, and reads the state without changing it |
| Sequencer.FrameAt | main.js:262-295 | definition of the function stateFrame returns: at i, each phase with records runs at i minus the budgets before it; reports the statuses settled, the records shown and hidden, and whether the local index after the last phase is 0 |
| Sequencer.Shown | main.js:157-184 | definition of the records animationFrame makes visible at a phase's local index: all of its group at index 0, none otherwise |
| Sequencer.Hidden | main.js:165-198 | definition of the records animationFrame hides at a phase's local index: all of its group at the phase's frame count, none otherwise |
| Sequencer.Total | main.js:267-294 | definition of the index at which frame returns true: the sum of the frame budgets of the phases that have records |
| Sequencer.Budget | main.js:267-289 | definition of a phase's shift of i: its frame count when it has records, else 0 |
| Sequencer.MoveEnd | main.js:267-271 | definition of the i at which the move phase is over: the move budget |
| Sequencer.MergeEnd | main.js:267-280 | definition of the i at which the merge phase is over: the move and merge budgets |
| Sequencer.Phases | main.js:267-289 | definition of the number of phases that have records |
| Sequencer.FrameDone | main.js:262-294 | each phase that has records takes 12 frames, and frame(i) returns true exactly at their total: false before and true at it |
| Sequencer.FrameSettles | main.js:263-293 | the still cells settle at 0; moved, merged and added cells settle exactly when their own phase ends |
| Sequencer.SettleIndex | main.js:263-293 | definition of the i at which cells of a status are settled: 0 for still, then the end of the moves, of the merges and the total |
| Sequencer.SettledAt | main.js:263-293 | each status is settled at exactly one i, its settle index, which is at most the total |
| Sequencer.SettledPositions | main.js:263-293 | definition of the cells frame(i) reports to tileAnimationDone: the lists of the statuses it settles, in the source's order |
| Sequencer.SettledPositionsSpec | main.js:263-293 | a cell is reported at i exactly when it is listed under a status that frame(i) settles |
| Sequencer.CellSettlesOnce | main.js:254-293 | an empty cell is never reported; an occupied cell is reported at exactly one i in 0..Total, the settle index of its final mark |
| Sequencer.GroupWindows | main.js:262-295 | a record that sits only in its own kind's group is shown (animationFrame at local index 0, main.js:157-198) exactly at its phase's start and hidden exactly at the phase's end, which is at most the total |
| Sequencer.FrameWindows | main.js:262-295 | every record of the state is shown exactly at the start of its kind's phase and hidden exactly at that phase's end, which is at most the total |
| Sequencer.PhaseStart | main.js:262-289 | definition of the i at which a kind's phase sees local index 0: after the budgets of the phases before it |
| Sequencer.PhaseFrames | main.js:144-146 | definition of each kind's frame count: 12 for moves, 2 * 6 for merges, 12 for adds |

## Left out

- `animationFrame` and `setSize` (main.js:148-204) write element styles with floating-point progress values. They are modelled only as which records a frame shows (local index 0) and hides (local index equal to the phase's frame count). Sizes and positions are not modelled.
- `stateAnimationStart` and `clearState` only create and remove DOM elements, so they are not modelled.
- `tileAnimationDone` sets an element's opacity. It is modelled by the statuses a frame reports as settled.
- `appAnimation` schedules `frame(i)` once per display frame with `requestAnimationFrame`. That scheduling is not modelled; `frame(i)` is a function of `i`.
- `newAppState`, `start` and the keyboard handling are not modelled. Neither is the precomputation of the four next states, which calls `slide` once per direction.
- `Math.random()` is not modelled. Each draw is a parameter in [0, 1), and its distribution is not stated.
- Spawn.PickIndex: multiplies the draw by the number of free cells exactly, as reals. JavaScript rounds the double product first, so for a draw just below a multiple of 1/length the source can pick the index one higher than the model does. `Spawn.PickValue` has no such gap: for every double draw, the scaled draw rounds down to zero exactly when the draw is below 1/10 in both.
- The tile invariant (every tile a power of two that is at least 2) is not part of `Game.GameState.Valid`, because `AddTile` and the other record helpers do not touch the board. Instead, `Game.NewGameState` establishes it and `Game.Slide` preserves it.
- `console.assert` (main.js:32) becomes a precondition of `Game.GameState.AddRandomTile`. At both call sites it is proved to hold, by `Spawn.OpeningBoard` and `Engine.SlideLeavesRoom`.
- `tiles` is a sequence value that each write replaces, not an array mutated in place. The source never shares a tiles array between two states, so no aliasing is lost.
- Element ids are kept as (prefix, serial) pairs rather than concatenated strings. Distinct pairs stand for distinct strings here, because no prefix ends in a digit.
- Game.GameState.AddTile: requires on-board coordinates. The source accepts any coordinates, but every caller passes on-board cells.
- Game.GameState.MoveTile: requires on-board coordinates, for the same reason.
- Game.GameState.MergeTile: requires on-board coordinates, for the same reason.
- main.js:101, main.js:107 and main.js:108 pass an extra argument to `getTile` (`getTile(state, fromX, y)`, and at line 108 also `getTile(newState, x, y)`). JavaScript ignores it, and so does the model.
- Sequencer.GroupedSpec: states each group's members and sizes but not that a group keeps the records' order; that order follows from `Grouped`, which pushes in list order and which `Sequencer.GroupRecords` is proved to compute.
