/** The recursive scorer `EstimateValue` (api/api.go:248-423): the score of stepping onto
    `spot` at depth `recursion`, on immutable grids. The four goroutines per level become
    four direct calls whose results are summed; the row-copying loops become value copies. */
module Scoring {
  import opened Types

  /** `1 - recursion / RECURSION_LIMIT` with integer division (api/api.go:250): a step, not a decay. */
  function RelevanceFactor(cfg: Config, recursion: int): (rf: int)
    requires cfg.Valid() && 0 <= recursion <= cfg.recursionLimit
    ensures rf == if recursion < cfg.recursionLimit then 1 else 0
  {
    1 - recursion / cfg.recursionLimit
  }

  /** The penalty loop of api/api.go:331-335 from iteration `i` on. Every iteration adds
      `DEATH_VALUE` times the relevance factor of the depth `next`, not of `i`. */
  function FailSum(cfg: Config, next: int, i: int): int
    requires cfg.Valid()
    decreases cfg.recursionLimit - i
  {
    if i >= cfg.recursionLimit then 0
    else cfg.deathValue * (1 - next / cfg.recursionLimit) + FailSum(cfg, next, i + 1)
  }

  /** The score credited to an infeasible child at depth `next`. */
  function FailValue(cfg: Config, next: int): int
    requires cfg.Valid()
  {
    FailSum(cfg, next, next)
  }

  lemma {:induction false} FailSumClosedForm(cfg: Config, next: int, i: int)
    requires cfg.Valid() && 0 <= next < cfg.recursionLimit && i <= cfg.recursionLimit
    ensures FailSum(cfg, next, i) == (cfg.recursionLimit - i) * cfg.deathValue
    decreases cfg.recursionLimit - i
  {
    if i < cfg.recursionLimit {
      FailSumClosedForm(cfg, next, i + 1);
      assert next / cfg.recursionLimit == 0;
      calc {
        FailSum(cfg, next, i);
        cfg.deathValue + (cfg.recursionLimit - (i + 1)) * cfg.deathValue;
        (cfg.recursionLimit - i) * cfg.deathValue;
      }
    }
  }

  /** An infeasible child is charged one `DEATH_VALUE` per level still left below the limit,
      and nothing at the limit itself. */
  lemma FailValueClosedForm(cfg: Config, next: int)
    requires cfg.Valid() && 0 <= next <= cfg.recursionLimit
    ensures FailValue(cfg, next) == (cfg.recursionLimit - next) * cfg.deathValue
  {
    if next < cfg.recursionLimit {
      FailSumClosedForm(cfg, next, next);
    }
  }

  /** The penalty loop itself, as the source runs it. */
  method ComputeFailValue(cfg: Config, next: int) returns (failValue: int)
    requires cfg.Valid() && 0 <= next <= cfg.recursionLimit
    ensures failValue == FailValue(cfg, next)
    ensures failValue == (cfg.recursionLimit - next) * cfg.deathValue
  {
    failValue := 0;
    var i := next;
    while i < cfg.recursionLimit
      invariant next <= i <= cfg.recursionLimit
      invariant failValue + FailSum(cfg, next, i) == FailValue(cfg, next)
      decreases cfg.recursionLimit - i
    {
      var rf := 1 - next / cfg.recursionLimit;
      failValue := failValue + cfg.deathValue * rf;
      i := i + 1;
    }
    FailValueClosedForm(cfg, next);
  }

  /** The grids a call works on, and the controlled snake's tail, which a call may clear. */
  predicate Snapshot(state: SnakeRequest, occ: seq<seq<int>>, food: seq<seq<bool>>) {
    IsGrid(occ, state.board.width, state.board.height) &&
    IsGrid(food, state.board.width, state.board.height) &&
    |state.you.body| >= 1 && InBounds(Tail(state.you), state.board.width, state.board.height)
  }

  /** The occupant of a cell is either nobody or a snake the board lists, as the collision
      block's `Snakes[...]` lookup needs. */
  predicate SafeOccupant(state: SnakeRequest, occ: seq<seq<int>>, spot: Coord)
    requires IsGrid(occ, state.board.width, state.board.height)
    requires InBounds(spot, state.board.width, state.board.height)
  {
    At(occ, spot) == -1 || 0 <= At(occ, spot) < |state.board.snakes|
  }

  /** Food on the cell: the healthy bonus above the threshold, the low-health one otherwise (api/api.go:257-263). */
  function FoodTerm(cfg: Config, state: SnakeRequest, hasFood: bool, rf: int): int {
    if hasFood then
      if state.you.health > cfg.healthThreshold && hasFood then cfg.foodValue * rf
      else cfg.lowFoodValue * rf
    else 0
  }

  /** The collision block of api/api.go:266-287, for a cell whose occupancy entry is `occupant`.
      Only a call at depth 0 can earn the kill reward or the immediate-death value. */
  function CollisionTerm(cfg: Config, state: SnakeRequest, spot: Coord, occupant: int, recursion: int, rf: int): (v: int)
    requires occupant == -1 || 0 <= occupant < |state.board.snakes|
    ensures occupant == -1 ==> v == 0
    ensures recursion != 0 ==> v == 0 || v == cfg.deathValue * rf
  {
    if occupant == -1 then 0
    else
      var other := state.board.snakes[occupant];
      if |state.you.body| < |other.body| then
        if spot.x == other.body[0].x && spot.y == other.body[0].y then
          if recursion == 0 then cfg.killValue * rf else 0
        else cfg.deathValue * rf
      else if recursion == 0 then cfg.immediateDeathValue
      else cfg.deathValue * rf
  }

  /** One penalty per axis on which the cell touches the board's edge (api/api.go:290-296). */
  function WallTerm(cfg: Config, state: SnakeRequest, spot: Coord, rf: int): int {
    (if spot.x == 0 || spot.x == state.board.width - 1 then cfg.nextToWallValue * rf else 0) +
    (if spot.y == 0 || spot.y == state.board.height - 1 then cfg.nextToWallValue * rf else 0)
  }

  /** The in-place write of api/api.go:315-319: stepping onto a cell without food frees the
      controlled snake's current tail. */
  function RetractTail(state: SnakeRequest, occ: seq<seq<int>>, food: seq<seq<bool>>, spot: Coord): (r: seq<seq<int>>)
    requires Snapshot(state, occ, food) && InBounds(spot, state.board.width, state.board.height)
    ensures IsGrid(r, state.board.width, state.board.height)
    ensures forall c :: InBounds(c, state.board.width, state.board.height) ==>
              At(r, c) == if !At(food, spot) && c == Tail(state.you) then -1 else At(occ, c)
  {
    if !food[spot.x][spot.y] then Update(occ, Tail(state.you), -1) else occ
  }

  /** The grid each feasible child receives (api/api.go:339-344): the parent's grid after the
      tail write, with the parent cell marked as snake 0. */
  function ChildGrid(state: SnakeRequest, occ: seq<seq<int>>, food: seq<seq<bool>>, spot: Coord): (r: seq<seq<int>>)
    requires Snapshot(state, occ, food) && InBounds(spot, state.board.width, state.board.height)
    ensures IsGrid(r, state.board.width, state.board.height)
    ensures forall c :: InBounds(c, state.board.width, state.board.height) ==>
              At(r, c) == if c == spot then 0
                          else if !At(food, spot) && c == Tail(state.you) then -1
                          else At(occ, c)
  {
    Update(RetractTail(state, occ, food, spot), spot, 0)
  }

  /** What a call credits for its own cell before looking further (api/api.go:250-296): on a
      free cell below the limit, the base value, the food bonus and one wall penalty per
      touched edge; at the limit, nothing. */
  function CellValue(cfg: Config, state: SnakeRequest, spot: Coord, occ: seq<seq<int>>, food: seq<seq<bool>>, recursion: int): (value: int)
    requires cfg.Valid() && 0 <= recursion <= cfg.recursionLimit
    requires Snapshot(state, occ, food)
    requires InBounds(spot, state.board.width, state.board.height)
    requires SafeOccupant(state, occ, spot)
    ensures recursion == cfg.recursionLimit ==> value == 0
    ensures recursion < cfg.recursionLimit && At(occ, spot) == -1 ==>
              value == cfg.baseValue + FoodBonus(cfg, state, At(food, spot)) + EdgeAxes(state, spot) * cfg.nextToWallValue
  {
    var rf := RelevanceFactor(cfg, recursion);
    cfg.baseValue * rf
    + FoodTerm(cfg, state, food[spot.x][spot.y], rf)
    + CollisionTerm(cfg, state, spot, occ[spot.x][spot.y], recursion, rf)
    + WallTerm(cfg, state, spot, rf)
  }

  /** The score of stepping onto `spot` at depth `recursion` (api/api.go:248-423). */
  function Estimate(cfg: Config, state: SnakeRequest, spot: Coord, occ: seq<seq<int>>, food: seq<seq<bool>>, recursion: int): int
    requires cfg.Valid() && 0 <= recursion <= cfg.recursionLimit
    requires Snapshot(state, occ, food)
    requires InBounds(spot, state.board.width, state.board.height)
    requires SafeOccupant(state, occ, spot)
    decreases cfg.recursionLimit - recursion
  {
    var w, h := state.board.width, state.board.height;
    var value := CellValue(cfg, state, spot, occ, food, recursion);
    if recursion < cfg.recursionLimit then
      var child := ChildGrid(state, occ, food, spot);
      var next := recursion + 1;
      var failValue := FailValue(cfg, next);
      var downV := if CanMove(occ, w, h, spot, Down) then Estimate(cfg, state, Step(spot, Down), child, food, next) else failValue;
      var upV := if CanMove(occ, w, h, spot, Up) then Estimate(cfg, state, Step(spot, Up), child, food, next) else failValue;
      var leftV := if CanMove(occ, w, h, spot, Left) then Estimate(cfg, state, Step(spot, Left), child, food, next) else failValue;
      var rightV := if CanMove(occ, w, h, spot, Right) then Estimate(cfg, state, Step(spot, Right), child, food, next) else failValue;
      value + downV + upV + leftV + rightV
    else
      value
  }

  /** A call at the recursion limit scores exactly 0, whatever occupies its cell. */
  lemma EstimateAtLimit(cfg: Config, state: SnakeRequest, spot: Coord, occ: seq<seq<int>>, food: seq<seq<bool>>)
    requires cfg.Valid()
    requires Snapshot(state, occ, food)
    requires InBounds(spot, state.board.width, state.board.height)
    requires SafeOccupant(state, occ, spot)
    ensures Estimate(cfg, state, spot, occ, food, cfg.recursionLimit) == 0
  {
  }

  /** A feasible child starts on a free cell of its own grid, and cannot step straight back,
      since the parent cell is marked as snake 0 there. */
  lemma ChildStep(state: SnakeRequest, occ: seq<seq<int>>, food: seq<seq<bool>>, spot: Coord, d: Direction)
    requires Snapshot(state, occ, food) && InBounds(spot, state.board.width, state.board.height)
    requires CanMove(occ, state.board.width, state.board.height, spot, d)
    ensures InBounds(Step(spot, d), state.board.width, state.board.height)
    ensures At(ChildGrid(state, occ, food, spot), Step(spot, d)) == -1
    ensures !CanMove(ChildGrid(state, occ, food, spot), state.board.width, state.board.height, Step(spot, d), Opposite(d))
  {
  }

  /** The food reward of the score, without the relevance factor. */
  function FoodBonus(cfg: Config, state: SnakeRequest, hasFood: bool): int {
    if !hasFood then 0
    else if state.you.health > cfg.healthThreshold then cfg.foodValue
    else cfg.lowFoodValue
  }

  /** The number of board edges (one per axis) the cell touches. */
  function EdgeAxes(state: SnakeRequest, spot: Coord): (n: int)
    ensures 0 <= n <= 2
  {
    (if spot.x == 0 || spot.x == state.board.width - 1 then 1 else 0) +
    (if spot.y == 0 || spot.y == state.board.height - 1 then 1 else 0)
  }

  /** The score as it works out on a free cell: 0 at the limit, and below it the base value,
      the food bonus, one wall penalty per touched edge and the four continuations, where an
      infeasible one costs `DEATH_VALUE` for every level left below the limit. */
  function FreeScore(cfg: Config, state: SnakeRequest, spot: Coord, occ: seq<seq<int>>, food: seq<seq<bool>>, depth: int): int
    requires cfg.Valid() && 0 <= depth <= cfg.recursionLimit
    requires Snapshot(state, occ, food)
    requires InBounds(spot, state.board.width, state.board.height)
    requires At(occ, spot) == -1
    decreases cfg.recursionLimit - depth
  {
    if depth == cfg.recursionLimit then 0
    else
      var w, h := state.board.width, state.board.height;
      var child := ChildGrid(state, occ, food, spot);
      var dead := (cfg.recursionLimit - (depth + 1)) * cfg.deathValue;
      cfg.baseValue + FoodBonus(cfg, state, At(food, spot)) + EdgeAxes(state, spot) * cfg.nextToWallValue
      + (if CanMove(occ, w, h, spot, Down) then FreeScore(cfg, state, Step(spot, Down), child, food, depth + 1) else dead)
      + (if CanMove(occ, w, h, spot, Up) then FreeScore(cfg, state, Step(spot, Up), child, food, depth + 1) else dead)
      + (if CanMove(occ, w, h, spot, Left) then FreeScore(cfg, state, Step(spot, Left), child, food, depth + 1) else dead)
      + (if CanMove(occ, w, h, spot, Right) then FreeScore(cfg, state, Step(spot, Right), child, food, depth + 1) else dead)
  }

  /** Every call the estimator makes on a free cell makes its recursive calls on free cells too,
      so the collision block never adds anything, and the estimate equals `FreeScore`. */
  lemma {:induction false} EstimateMatchesFreeScore(cfg: Config, state: SnakeRequest, spot: Coord, occ: seq<seq<int>>, food: seq<seq<bool>>, recursion: int)
    requires cfg.Valid() && 0 <= recursion <= cfg.recursionLimit
    requires Snapshot(state, occ, food)
    requires InBounds(spot, state.board.width, state.board.height)
    requires At(occ, spot) == -1
    ensures Estimate(cfg, state, spot, occ, food, recursion) == FreeScore(cfg, state, spot, occ, food, recursion)
    decreases cfg.recursionLimit - recursion, 1
  {
    if recursion < cfg.recursionLimit {
      ContinuationMatches(cfg, state, spot, occ, food, recursion, Down);
      ContinuationMatches(cfg, state, spot, occ, food, recursion, Up);
      ContinuationMatches(cfg, state, spot, occ, food, recursion, Left);
      ContinuationMatches(cfg, state, spot, occ, food, recursion, Right);
    }
  }

  /** One continuation of a call below the limit: the same value in the estimator and in `FreeScore`. */
  lemma {:induction false} ContinuationMatches(cfg: Config, state: SnakeRequest, spot: Coord, occ: seq<seq<int>>, food: seq<seq<bool>>, recursion: int, d: Direction)
    requires cfg.Valid() && 0 <= recursion < cfg.recursionLimit
    requires Snapshot(state, occ, food)
    requires InBounds(spot, state.board.width, state.board.height)
    ensures
      var w, h := state.board.width, state.board.height;
      var child := ChildGrid(state, occ, food, spot);
      (if CanMove(occ, w, h, spot, d) then Estimate(cfg, state, Step(spot, d), child, food, recursion + 1)
       else FailValue(cfg, recursion + 1))
      ==
      (if CanMove(occ, w, h, spot, d) then FreeScore(cfg, state, Step(spot, d), child, food, recursion + 1)
       else (cfg.recursionLimit - (recursion + 1)) * cfg.deathValue)
    decreases cfg.recursionLimit - recursion, 0
  {
    var w, h := state.board.width, state.board.height;
    if CanMove(occ, w, h, spot, d) {
      ChildStep(state, occ, food, spot, d);
      EstimateMatchesFreeScore(cfg, state, Step(spot, d), ChildGrid(state, occ, food, spot), food, recursion + 1);
    } else {
      FailValueClosedForm(cfg, recursion + 1);
    }
  }
}
