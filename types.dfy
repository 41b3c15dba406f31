/** The turn description the engine receives, its tuning constants, the four
    moves and the dense `[x][y]` grids it reasons over (api/api.go:8-36, 52-55). */
module Types {

  /** A board cell; `x` grows to the right, `y` grows downwards. */
  datatype Coord = Coord(x: int, y: int)

  /** Any snake on the board; `body[0]` is the head and the last segment the tail. */
  datatype Snake = Snake(id: string, name: string, health: int, body: seq<Coord>)

  datatype Board = Board(height: int, width: int, food: seq<Coord>, snakes: seq<Snake>)

  datatype Game = Game(id: string)

  /** One turn: the game it belongs to, the board, and the controlled snake `you`. */
  datatype SnakeRequest = SnakeRequest(game: Game, turn: int, board: Board, you: Snake)

  /** The scoring constants, which the engine reads as process-wide constants. */
  datatype Config = Config(
    baseValue: int,
    foodValue: int,
    lowFoodValue: int,
    killValue: int,
    deathValue: int,
    immediateDeathValue: int,
    nextToWallValue: int,
    healthThreshold: int,
    recursionLimit: int)
  {
    /** The relevance factor divides by the recursion limit, so it must be positive. */
    predicate Valid() {
      recursionLimit >= 1
    }
  }

  datatype Direction = Down | Up | Left | Right

  /** The move names the engine answers with. */
  function Name(d: Direction): (s: string)
    ensures s in {"down", "up", "left", "right"}
  {
    match d
    case Down => "down"
    case Up => "up"
    case Left => "left"
    case Right => "right"
  }

  /** The cell one step away: down increases y, up decreases it, left decreases x, right increases it. */
  function Step(c: Coord, d: Direction): Coord {
    match d
    case Down => Coord(c.x, c.y + 1)
    case Up => Coord(c.x, c.y - 1)
    case Left => Coord(c.x - 1, c.y)
    case Right => Coord(c.x + 1, c.y)
  }

  function Opposite(d: Direction): Direction {
    match d
    case Down => Up
    case Up => Down
    case Left => Right
    case Right => Left
  }

  predicate InBounds(c: Coord, width: int, height: int) {
    0 <= c.x < width && 0 <= c.y < height
  }

  /** A grid indexed `[x][y]` with `width` columns of `height` cells each. */
  predicate IsGrid<T>(g: seq<seq<T>>, width: int, height: int) {
    |g| == width && forall x :: 0 <= x < width ==> |g[x]| == height
  }

  function At<T>(g: seq<seq<T>>, c: Coord): T
    requires 0 <= c.x < |g| && 0 <= c.y < |g[c.x]|
  {
    g[c.x][c.y]
  }

  /** The grid with one cell overwritten, everything else as before. */
  function Update<T>(g: seq<seq<T>>, c: Coord, v: T): (r: seq<seq<T>>)
    requires 0 <= c.x < |g| && 0 <= c.y < |g[c.x]|
    ensures |r| == |g| && forall x :: 0 <= x < |g| ==> |r[x]| == |g[x]|
    ensures forall x, y :: 0 <= x < |g| && 0 <= y < |g[x]| ==>
              r[x][y] == if x == c.x && y == c.y then v else g[x][y]
  {
    g[c.x := g[c.x][c.y := v]]
  }

  function Tail(s: Snake): Coord
    requires |s.body| >= 1
  {
    s.body[|s.body| - 1]
  }

  /** Whether a move from `c` is allowed: the short-circuit test of api/api.go:125-129 and 309-313,
      which reads the grid only after the bound on the moving axis has been checked. */
  function CanMove(occ: seq<seq<int>>, width: int, height: int, c: Coord, d: Direction): (r: bool)
    requires IsGrid(occ, width, height) && InBounds(c, width, height)
    ensures r <==> InBounds(Step(c, d), width, height) && At(occ, Step(c, d)) == -1
  {
    match d
    case Down => c.y + 1 <= height - 1 && occ[c.x][c.y + 1] == -1
    case Up => c.y - 1 >= 0 && occ[c.x][c.y - 1] == -1
    case Left => c.x - 1 >= 0 && occ[c.x - 1][c.y] == -1
    case Right => c.x + 1 <= width - 1 && occ[c.x + 1][c.y] == -1
  }
}
