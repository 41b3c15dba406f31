# Move-decision engine of a Battlesnake bot, in Dafny

This project models the move engine of a Go Battlesnake bot (`api/api.go`). Each turn,
`GetMove` does four things:

- It builds an occupancy grid and a food grid from the turn's snakes and food.
- It tests which of the four moves from the tracked head are feasible.
- It scores each feasible move with the recursive, depth-limited estimator `EstimateValue`.
- It picks the best move with `MapMaxIndex` and advances the head it tracks for that game.

The model proves the following:

- The grids hold exactly what the turn describes.
- Feasibility means "in bounds and free".
- Every estimator call, at depth 0 and deeper, lands on a free cell. So the collision/kill block of the estimator never contributes.
- The estimator equals a simple reference score: base value, food bonus and wall penalties, plus the four continuations, where a blocked one costs `DEATH_VALUE` per remaining level.
- When no score is -1, the selector returns the first largest score in whatever order Go's map iteration takes.
- The tracked head moves one step in the chosen direction.

Files and modules:

- `types.dfy` (`Types`): coordinates, snakes, the request, the scoring constants (`Config`), directions, `[x][y]` grids and the feasibility test.
- `grids.dfy` (`Grids`): the grid builder, with the "last writer wins" specification of the occupancy grid.
- `scoring.dfy` (`Scoring`): `Estimate`, a function over immutable grids, the penalty loop for blocked moves, and the reference score `FreeScore`.
- `selection.dfy` (`Selection`): `MapMaxIndex`.
- `engine.dfy` (`MoveEngine`): the depth-0 dispatch, and the class `Engine`. Its fields `gameHeads` and `previousEstimates` are the Go globals of the same names. `GetMove` is its method.

Modelling choices:

- The scoring constants (`BASE_VALUE`, `FOOD_VALUE`, `LOW_FOOD_VALUE`, `KILL_VALUE`, `DEATH_VALUE`, `IMMEDIATE_DEATH_VALUE`, `NEXT_TO_WALL_VALUE`, `HEALTH_THRESHOLD`, `RECURSION_LIMIT`) are not defined in the modelled file. They are a `Config` parameter, and `Config.Valid()` requires `recursionLimit >= 1`, because the relevance factor divides by it.
- The relevance factor `1 - recursion / RECURSION_LIMIT` uses Go's truncating division. Its operands are never negative, so Dafny's `/` gives the same value. The factor is 1 below the limit and 0 at it.
- Each goroutine plus channel pair becomes a direct call, and the results are summed. At depth 1 and deeper every call works on its own copy of the grid (api/api.go:338-350), so the order does not matter there.
- At depth 0, the four calls share one occupancy grid. Each feasible call on a cell without food writes -1 over the controlled snake's tail in that shared grid. The model runs the calls in the order down, up, left, right, and `ScheduledGrid` is the grid each call sees. `ScheduledGridFreesOnlyTail` proves that this grid differs from the built grid only at the tail, where it holds -1. So every depth-0 call still starts on a free cell.
- Go's map iteration order in `MapMaxIndex` is unspecified. `GetMove` takes it as a parameter `order` (any permutation of the four directions), and the selector's contract holds for every order.
- The model follows the code as written:
  - The collision block takes its kill/body-death branch when the controlled snake is *shorter* than the occupant (`<`, api/api.go:268-286). Equal or longer gives the immediate-death value at depth 0. The inline comment there says otherwise.
  - The depth-0 calls mutate one shared grid (api/api.go:146-164, 318); they are not isolated from each other.
  - `MapMaxIndex` uses -1 as its "nothing chosen" sentinel (api/api.go:205-214). A score of -1 lets the next entry replace it whatever its value, so "first largest wins" is proved only when no score is -1.
  - A head segment is left off the occupancy grid only when it differs from the tracked head on both axes (api/api.go:95). Its `headPositions` slot is never read.

## Model

| member | source | states |
|---|---|---|
| `Types.Name` | api/api.go:52-55 | every direction is answered with one of the four move strings "down", "up", "left", "right" |
| `Types.CanMove` | api/api.go:124-129 | a move from an in-bounds cell is allowed exactly when the target cell is inside `[0,Width)×[0,Height)` and its occupancy entry is -1; the short-circuit test reads the grid only in bounds |
| `Grids.MarksPrefixIff` | api/api.go:92-99 | the first `n` segments of a body write to a cell exactly when one of them lies on it and is not an excluded head |
| `Grids.MarksIff` | api/api.go:90-101 | a snake writes its index to a cell exactly when one of its segments lies there, unless that segment is its head (index 0) and differs from the tracked head in both x and y |
| `Grids.OwnerIsLastWriter` | api/api.go:89-101 | a cell's occupancy value is -1 exactly when no snake writes to it; otherwise it is the highest index of a snake that writes to it, and no later snake writes there |
| `Grids.NewGrid` | api/api.go:71-77 | the result is a `Width`×`Height` grid with every cell equal to the fill value |
| `Grids.BuildOccupancy` | api/api.go:71-101 | the built grid is `Width`×`Height` and every cell equals the last-writer owner of that cell; every index the source writes to is in range, including the `headPositions` slot of an excluded head |
| `Grids.BuildFood` | api/api.go:103-113 | the food grid is `Width`×`Height` and a cell is true exactly when it is listed in `Board.Food` |
| `Scoring.RelevanceFactor` | api/api.go:250 | the relevance factor is 1 for every depth below `RECURSION_LIMIT` and 0 at the limit: a step, not a decay |
| `Scoring.FailSumClosedForm` | api/api.go:332-335 | below the limit, the penalty loop from iteration `i` adds `DEATH_VALUE` once per remaining iteration |
| `Scoring.FailValueClosedForm` | api/api.go:331-335 | a blocked child at depth `r` is charged `(RECURSION_LIMIT - r) * DEATH_VALUE`, which is 0 at the limit |
| `Scoring.ComputeFailValue` | api/api.go:331-335 | the penalty loop computes that same value |
| `Scoring.CollisionTerm` | api/api.go:265-287 | the collision block adds nothing on a free cell; at depth 1 and deeper it adds either nothing or `DEATH_VALUE` times the relevance factor, so kill and immediate-death credits occur only at depth 0 |
| `Scoring.RetractTail` | api/api.go:315-319 | stepping onto a cell without food sets the controlled snake's tail `You.Body[len-1]` to -1; every other cell is unchanged |
| `Scoring.ChildGrid` | api/api.go:338-350 | a feasible child's grid equals the parent's grid except that the parent cell is 0 and, when the parent cell has no food, the tail is -1 |
| `Scoring.CellValue` | api/api.go:250-296 | a call's own contribution is 0 at the limit; below it, on a free cell, it is `BASE_VALUE`, plus `FOOD_VALUE` (health above the threshold) or `LOW_FOOD_VALUE` on food, plus `NEXT_TO_WALL_VALUE` once per touched x-edge and once per touched y-edge |
| `Scoring.EstimateAtLimit` | api/api.go:250-298 | a call at the recursion limit returns exactly 0, whatever occupies its cell |
| `Scoring.ChildStep` | api/api.go:309-344 | a feasible child starts on an in-bounds cell that is -1 in its own grid, and cannot step straight back, because the parent cell is marked 0 |
| `Scoring.EdgeAxes` | api/api.go:290-296 | a cell touches between zero and two board edges, at most one per axis |
| `Scoring.EstimateMatchesFreeScore` | api/api.go:248-423 | on a free cell the estimator equals the reference score `FreeScore`, at every depth. So every recursive call lands on a free cell, the collision block never fires, and below the limit the score is the cell's value plus the four continuations. A blocked continuation costs `(RECURSION_LIMIT - r) * DEATH_VALUE` |
| `Scoring.ContinuationMatches` | api/api.go:338-407 | each of the four continuations has the same value in the estimator and in the reference score |
| `Selection.MapMaxIndex` | api/api.go:202-221 | on an empty map the result is ""; otherwise it is one of the map's keys. When no value is -1, it is the key of a largest value, and no entry visited before it has as large a value, in any iteration order |
| `MoveEngine.ScheduledGridFreesOnlyTail` | api/api.go:145-167 | the grid each depth-0 call sees differs from the built grid only at the controlled snake's tail, where it is -1; a feasible direction's target is still -1 there |
| `MoveEngine.MoveScores` | api/api.go:131-172 | the four scores are keyed by exactly "down", "up", "left", "right", and an infeasible direction scores exactly `IMMEDIATE_DEATH_VALUE` |
| `MoveEngine.MoveScoresAreFreeScores` | api/api.go:145-167 | a feasible direction's score is the reference score of its target cell, on the grid its call sees, starting at depth 0 |
| `MoveEngine.ChosenIsFirstMaximum` | api/api.go:175 | the selected key names a direction; when no score is -1, its score is the largest and no direction before it in iteration order scores as much |
| `MoveEngine.TurnScores` | api/api.go:71-172 | the scores of a turn cover exactly the four move names |
| `MoveEngine.ScoreTurn` | api/api.go:71-172 | building the grids with loops and scoring the four moves gives the scores that the turn's snakes and food determine |
| `MoveEngine.Advance` | api/api.go:183-199 | the move is one of the four names, equal to the chosen key when that key is a move name; the new head is one step from the old head in that direction |
| `MoveEngine.Engine.constructor` | api/api.go:57-58 | the engine starts with no tracked heads and no previous estimates |
| `MoveEngine.Engine.GetMove` | api/api.go:60-200 | the answer is one of the four moves. A new game starts from `You.Body[0]`, and an existing entry is used as it is. Afterwards `gameHeads[id]` is that head moved one step in the answered direction, and other games are unchanged. `PreviousEstimates` holds the four scores of the turn. When no score is -1, the answer has the largest score and is the first such in iteration order |

## Left out

- `DecodeSnakeRequest` and `routes.go`: JSON decoding and HTTP handling are I/O with no decision logic.
- `PrintBoard` and the `println` diagnostics: console output only.
- Goroutines and channels: modelled as direct sequential calls whose results are summed. At depth 0 the four calls race on the shared grid: one call's tail write (api/api.go:318) can land before or after another call's feasibility reads (api/api.go:309-313). So in the source the depth-0 scores, and with them the chosen move, depend on goroutine timing. `MoveEngine.MoveScores` and `MoveEngine.Engine.GetMove` give the scores and the move of the fixed schedule down, up, left, right only. For example, on a 3×3 board with body (1,1),(1,2),(0,2),(0,1),(0,0), the "up" target (1,0) has the tail (0,0) as its left neighbour: it sees the tail occupied when "up" runs before "right" and free when "right" runs first. The free-cell invariant (`ScheduledGridFreesOnlyTail`) holds under every schedule.
- The row-copying loops of `EstimateValue` (api/api.go:339-350 and the three copies after them): grids are immutable values here, so a copy is the value itself.
- The `headPositions` table: nothing reads it. Only the index bound its write needs is kept, as part of `Grids.SegmentsWritable`.
- The `head` parameter of `EstimateValue`: the body never reads it.
- Go's 64-bit `int`: scores and coordinates are unbounded integers, so overflow of very large constants is not modelled.
- MoveEngine.Engine.GetMove: its requires (through `TurnReady`) exclude the inputs on which the Go code panics with an index out of range: a tracked head off the board (api/api.go:125-129), snake segments or food off the board (api/api.go:98, 112), negative board dimensions. An off-board tracked head is a state the engine itself can reach: its own postcondition moves the head one step, which can leave the board after a forced move at an edge or when the server applied a different move, and a known game's head is never re-synchronised with `You.Body[0]`. In the source every later turn of that game then panics before `gameHeads` is updated; the model does not describe those turns.
- MoveEngine.Engine.GetMove: requires the controlled snake's body to be non-empty with its tail on the board, even for a known game. The source reads the tail only when a feasible move reaches a cell without food.
- Scoring.Estimate: requires the controlled snake's tail on the board on every call. The source writes the tail only when the call's cell has no food.
