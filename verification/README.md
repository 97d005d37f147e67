# Conway's Game of Life core, in Dafny

This project models the simulation core of `app/conway.rb`, a browser Game of
Life written in Ruby. Live cells are a sparse set of integer coordinates on an
unbounded plane; neighbouring cells are `CELL_WIDTH` = `CELL_HEIGHT` = 15
canvas units apart. The `GOL` object owns the grid and a generation counter,
and it runs a start/stop timer.

| file | module | models |
|---|---|---|
| `coordinates.dfy` | `Coordinates` | `GOL::Coordinates`: structural equality, the eight accessors `n` … `nw` and `neighbours` |
| `grids.dfy` | `Grids` | the live-cell set of `GOL::Grid`: `fill_cell`, `unfill_cell`, `filled?`, `unfilled?`, and the `to_a` snapshot of `filled_cells` |
| `life.dfy` | `Life` | `GOL#step` as a pure function: neighbour counts, the three rule lists, `dead_cells_neighbouring_with_live_cells` |
| `step_algorithm.dfy` | `StepAlgorithm` | `GOL#step` as `app/conway.rb` runs it. It selects the rule lists over a snapshot, walks each live cell's neighbours to collect birth candidates, and then unfills and fills cell by cell. It is proved equal to `Life.Step`. |
| `gol.dfy` | `Gol` | the `GOL` object: `start`, `stop`, `reset`, `reset_cells`, `step_time=`, `step`, `load_preset` |
| `patterns.dfy` | `Patterns` | well-known patterns under the step: the blinker (the first built-in preset), the block, the L-tromino |

The periodic timer handle that `setInterval` returns is modelled as
`Option<Interval>`, and each handle records the period it was started with.
The jQuery `trigger` calls become `Event` values appended to a log in the state.
The invariant `Gol.Valid` ties the state together. It says the status is
`Running` exactly when a handle exists, and the active handle ticks at the
current step time. It also says the step time is at least `MIN_STEP_TIME`.
`Gol.Init` establishes it, and every operation preserves it.

Two behaviours of `app/conway.rb` worth noting:

- `load_preset` calls `reset_cells`, not `reset` (app/conway.rb:86-89). It
  therefore does not stop a running timer. `Gol.LoadPreset` keeps the status
  and the handle.
- `step_time=` decides whether to restart from `@status`, not from the handle.
  `Gol.SetStepTime` does the same.

## Model

| member | source | states |
|---|---|---|
| `Coordinates.N` | app/conway.rb:115 | the north neighbour is in the same column and strictly above (smaller y) |
| `Coordinates.NE` | app/conway.rb:116 | the north-east neighbour is strictly right of and strictly above the cell |
| `Coordinates.E` | app/conway.rb:117 | the east neighbour is in the same row and strictly to the right |
| `Coordinates.SE` | app/conway.rb:118 | the south-east neighbour is strictly right of and strictly below the cell |
| `Coordinates.S` | app/conway.rb:119 | the south neighbour is in the same column and strictly below |
| `Coordinates.SW` | app/conway.rb:120 | the south-west neighbour is strictly left of and strictly below the cell |
| `Coordinates.W` | app/conway.rb:121 | the west neighbour is in the same row and strictly to the left |
| `Coordinates.NW` | app/conway.rb:122 | the north-west neighbour is strictly left of and strictly above the cell |
| `Coordinates.AccessorsAdjacent` | app/conway.rb:115-122 | each of the eight accessors yields a different cell at most one cell width and one cell height away. With its direction, this fixes the offset to -15, 0 or +15 on each axis |
| `Coordinates.Neighbours` | app/conway.rb:111-122 | exactly eight coordinates, pairwise distinct, never the cell itself; they are exactly the cells offset by -15, 0 or +15 on each axis, excluding (0, 0) |
| `Coordinates.NeighbourSymmetric` | app/conway.rb:115-122 | if `d` is among the neighbours of `c`, then `c` is among the neighbours of `d` |
| `Grids.Empty` | app/conway.rb:151 | a fresh grid has no live cell |
| `Grids.Filled` | app/conway.rb:195-197 | a cell reported live implies the live set is not empty |
| `Grids.Unfilled` | app/conway.rb:195-201 | `unfilled?` holds exactly when `filled?` does not |
| `Grids.FillCell` | app/conway.rb:180-186 | the cell is live afterwards and no other cell changes; filling a live cell leaves the set and its size unchanged, otherwise the size grows by one |
| `Grids.UnfillCell` | app/conway.rb:188-193 | the cell is dead afterwards and no other cell changes; unfilling a dead cell is a no-op, otherwise the size shrinks by one |
| `Grids.FillCells` | app/conway.rb:86-89 | filling a list of cells one by one leaves live exactly the old live cells plus the listed ones |
| `Grids.UnfillCells` | app/conway.rb:67-69 | unfilling a list of cells one by one leaves live exactly the old live cells minus the listed ones |
| `Grids.ToSeq` | app/conway.rb:52-55 | listing a set of cells gives every cell exactly once, with no duplicates and nothing else |
| `Grids.LiveCells` | app/conway.rb:52-55 | the snapshot lists every live cell exactly once, with no duplicates and nothing else |
| `Grids.UnfillSnapshotEmpties` | app/conway.rb:54-55 | unfilling every cell of a snapshot of the live cells empties the grid |
| `Life.CountFilled` | app/conway.rb:61 | counting live entries gives at most the list's length, and zero exactly when no entry is live |
| `Life.CountFilledIsCardinality` | app/conway.rb:61 | over a duplicate-free list, the count of live entries is the size of the set of live entries |
| `Life.LiveNeighbours` | app/conway.rb:61-64 | a cell has at most eight live neighbours |
| `Life.LiveNeighboursCountsAdjacent` | app/conway.rb:61-64 | the neighbour count is the number of live cells adjacent to the cell |
| `Life.HasLiveNeighbour` | app/conway.rb:80-84 | the neighbour count is positive exactly when some live cell is adjacent |
| `Life.DeadCellsNeighbouringWithLiveCells` | app/conway.rb:80-84 | the birth candidates are exactly the dead cells with at least one live neighbour, each one once |
| `Life.Rule1Cells` | app/conway.rb:61 | rule 1 picks only live cells, and a live cell escapes it exactly when it has at least two live neighbours |
| `Life.Rule3Cells` | app/conway.rb:63 | rule 3 picks only live cells, none that rule 1 also picks, and a live cell escapes it exactly when it has at most three live neighbours |
| `Life.Rule4Cells` | app/conway.rb:64 | rule 4 picks exactly the dead cells with three live neighbours anywhere on the plane, although it only searches the birth candidates |
| `Life.Step` | app/conway.rb:60-70 | a cell is live in the next generation exactly when it was live with 2 or 3 live neighbours, or dead with exactly 3; all counts are taken on the pre-step grid |
| `Life.IsolatedDeadCellStaysDead` | app/conway.rb:80-84 | a dead cell with no live neighbour is still dead after the step |
| `Life.StepStaysNearLiveCells` | app/conway.rb:60-84 | every cell live after the step was live before or was adjacent to a live cell |
| `StepAlgorithm.Select` | app/conway.rb:61-64 | the selection equals the order-preserving filter of the list. It keeps exactly the listed cells whose pre-step neighbour count the rule selects: fewer than 2, more than 3, or exactly 3 |
| `StepAlgorithm.FilterMembers` | app/conway.rb:61-64 | the filtered list holds exactly the selected cells of the input and is no longer than it |
| `StepAlgorithm.CollectBirthCandidates` | app/conway.rb:80-84 | walking each live cell's neighbours and collecting the dead ones yields exactly the birth-candidate set |
| `StepAlgorithm.StepInPlace` | app/conway.rb:60-70 | computing all three rule lists first and then applying them cell by cell gives the same grid as the pure step |
| `Gol.Init` | app/conway.rb:14-19 | a new simulation is valid and stopped, at generation 0, with a step time of 500, no timer handle, no live cell and no notification |
| `Gol.Start` | app/conway.rb:21-27 | with a timer handle present nothing changes; otherwise a handle is created at the current step time, the status becomes running, one 'start' is raised, and cells, generation and step time are kept |
| `Gol.Stop` | app/conway.rb:29-36 | with no handle nothing changes; otherwise the handle is dropped, the status becomes stopped, one 'stop' is raised, and cells, generation and step time are kept |
| `Gol.ResetCells` | app/conway.rb:54-58 | all cells are dead, the generation is 0 and one 'reset' is raised; status, handle and step time are kept |
| `Gol.Reset` | app/conway.rb:38-41 | afterwards no handle exists, a valid simulation is stopped, all cells are dead and the generation is 0; 'stop' is raised only if a handle existed, then 'reset' |
| `Gol.SetStepTime` | app/conway.rb:43-50 | a value below 30 changes nothing; otherwise the step time is updated and status, cells and generation are kept; a running simulation is restarted so its handle ticks at the new time, raising 'stop' then 'start' |
| `Gol.Step` | app/conway.rb:60-74 | the grid follows the Life rules against the pre-step grid, the generation goes up by exactly 1, one 'change' is raised, and the timer state is kept |
| `Gol.LoadPreset` | app/conway.rb:86-89 | the live cells are exactly the preset's cells, the generation is 0, one 'reset' is raised, and the timer is left running or stopped as it was |
| `Gol.StartIdempotent` | app/conway.rb:21-27 | starting twice is the same as starting once, so at most one handle is ever active |
| `Gol.StopIdempotent` | app/conway.rb:29-36 | stopping twice is the same as stopping once, with no second 'stop' |
| `Gol.StartThenStop` | app/conway.rb:21-36 | stopping a freshly started simulation restores the stopped state, apart from the 'start' and 'stop' notifications |
| `Gol.ResetTwice` | app/conway.rb:38-58 | a second reset changes nothing except raising one more 'reset' |
| `Patterns.LiveNeighboursExpanded` | app/conway.rb:111-112 | the neighbour count equals the sum over the eight accessors n, ne, e, se, s, sw, w, nw |
| `Patterns.StepIs` | app/conway.rb:60-70 | if the rules single out exactly a given set of cells, the step yields exactly that set |
| `Patterns.BlinkerTurns` | app/conway.rb:60-70 | a horizontal row of three cells becomes the vertical column of three through its centre |
| `Patterns.BlinkerTurnsBack` | app/conway.rb:60-70 | the vertical column of three becomes the horizontal row again |
| `Patterns.BlockIsStill` | app/conway.rb:60-70 | a 2x2 block is unchanged by a step |
| `Patterns.LTrominoBecomesBlock` | app/conway.rb:60-70 | three cells of a 2x2 block become the full block in one step |
| `Patterns.BlinkerPreset` | app/conway.rb:245-247 | the first built-in preset holds exactly the three cells of the horizontal blinker |
| `Patterns.BlinkerPresetPeriodTwo` | app/conway.rb:245-247 | loading the first preset and stepping twice gives back the preset's cells at generation 2 |

## Left out

- Canvas drawing: `draw_canvas` and the `fillRect`/`clearRect` calls inside `fill_cell` and `unfill_cell`. They only render.
- `get_cursor_position`, `canvas_element`, `add_event_listeners` and the top-level DOM wiring. They are browser event handling.
- `setInterval` and `clearInterval` are not modelled as timers. A handle is an `Interval` value that records its period. The timer ticks that would call `step` are not modelled; `Gol.Step` is the tick.
- The jQuery `trigger` calls are not delivered to anyone. They are appended to the `events` log.
- The Cantor-pairing `hash` and the `Set#delete` patch. Both are workarounds for the Ruby host library. The model uses structural set membership, which is the behaviour the code intends. It does not reproduce the duplicate insertion that the code itself reports as a defect.
- Debug `p` prints, and the canvas-derived `width`, `height`, `max_x` and `max_y`. These only affect output and rendering.
- The literal `PRESETS` data. `Gol.LoadPreset` takes the preset's cell list as a parameter. The error an out-of-range preset index would raise is therefore not modelled. The first preset appears in `Patterns` as `BlinkerPreset`, the blinker.
- Gol.Reset: ends in the stopped status only from a state satisfying `Gol.Valid`. The code guarantees that for every state its operations can reach.
- Gol.SetStepTime: the restart at the new period is stated for a running state that holds a handle. Every valid running state holds one.
- Number width: the program runs under Opal, where every Ruby integer is a JavaScript double. Coordinates and the `@current_generation += 1` counter (app/conway.rb:72) are exact only up to 2^53. The model uses unbounded `int` and `nat`, so it describes the program only while all values stay below that bound.
