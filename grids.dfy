/** The grid builder at the start of a move decision (api/api.go:71-113): an occupancy
    grid holding, per cell, the index of the snake written there last or -1, and a food grid. */
module Grids {
  import opened Types

  /** A head segment stays off the occupancy grid only when it differs from the tracked
      head on both axes (api/api.go:95). */
  predicate Excluded(j: int, c: Coord, head: Coord) {
    j == 0 && c.x != head.x && c.y != head.y
  }

  /** Whether one of the first `n` segments of `body` is written to cell `c`. */
  predicate MarksPrefix(body: seq<Coord>, head: Coord, c: Coord, n: nat)
    requires n <= |body|
  {
    n > 0 && (MarksPrefix(body, head, c, n - 1) || (body[n - 1] == c && !Excluded(n - 1, body[n - 1], head)))
  }

  /** Whether snake `s` writes its index to cell `c`. */
  predicate Marks(s: Snake, head: Coord, c: Coord) {
    MarksPrefix(s.body, head, c, |s.body|)
  }

  lemma {:induction false} MarksPrefixIff(body: seq<Coord>, head: Coord, c: Coord, n: nat)
    requires n <= |body|
    ensures MarksPrefix(body, head, c, n) <==>
            exists j :: 0 <= j < n && body[j] == c && !Excluded(j, body[j], head)
  {
    if n > 0 {
      MarksPrefixIff(body, head, c, n - 1);
      if body[n - 1] == c && !Excluded(n - 1, body[n - 1], head) {
        assert MarksPrefix(body, head, c, n);
      }
    }
  }

  /** A snake writes to `c` exactly when a segment that is not an excluded head lies on `c`. */
  lemma MarksIff(s: Snake, head: Coord, c: Coord)
    ensures Marks(s, head, c) <==>
            exists j :: 0 <= j < |s.body| && s.body[j] == c && !Excluded(j, s.body[j], head)
  {
    MarksPrefixIff(s.body, head, c, |s.body|);
  }

  /** The occupancy value of `c` once the first `n` snakes have been written, in index order. */
  function Owner(snakes: seq<Snake>, head: Coord, c: Coord, n: nat): int
    requires n <= |snakes|
  {
    if n == 0 then -1
    else if Marks(snakes[n - 1], head, c) then n - 1
    else Owner(snakes, head, c, n - 1)
  }

  /** The cell stays -1 exactly when no snake writes to it; otherwise it holds the highest
      index of a snake that does, since later snakes overwrite earlier ones. */
  lemma {:induction false} OwnerIsLastWriter(snakes: seq<Snake>, head: Coord, c: Coord, n: nat)
    requires n <= |snakes|
    ensures -1 <= Owner(snakes, head, c, n) < n
    ensures Owner(snakes, head, c, n) == -1 <==> forall i :: 0 <= i < n ==> !Marks(snakes[i], head, c)
    ensures Owner(snakes, head, c, n) >= 0 ==>
              Marks(snakes[Owner(snakes, head, c, n)], head, c) &&
              forall i :: Owner(snakes, head, c, n) < i < n ==> !Marks(snakes[i], head, c)
  {
    if n > 0 {
      OwnerIsLastWriter(snakes, head, c, n - 1);
    }
  }

  /** What the source needs for its writes to stay in range: every written segment is on
      the board, and an excluded head's slot `headPositions[i][0]` exists. */
  predicate SegmentsWritable(snakes: seq<Snake>, head: Coord, width: int, height: int) {
    forall i, j :: 0 <= i < |snakes| && 0 <= j < |snakes[i].body| ==>
      if Excluded(j, snakes[i].body[j], head) then i < width && height >= 1
      else InBounds(snakes[i].body[j], width, height)
  }

  predicate FoodInBounds(food: seq<Coord>, width: int, height: int) {
    forall k :: 0 <= k < |food| ==> InBounds(food[k], width, height)
  }

  /** The occupancy grid as a value, for stating what the engine computes. */
  function OccupancyGrid(snakes: seq<Snake>, head: Coord, width: nat, height: nat): seq<seq<int>> {
    seq(width, x => seq(height, y => Owner(snakes, head, Coord(x, y), |snakes|)))
  }

  /** The food grid as a value, for stating what the engine computes. */
  function FoodGrid(food: seq<Coord>, width: nat, height: nat): seq<seq<bool>> {
    seq(width, x => seq(height, y => Coord(x, y) in food))
  }

  /** Two grids of the same shape that agree on every cell are the same grid. */
  lemma GridExtensionality<T>(a: seq<seq<T>>, b: seq<seq<T>>, width: nat, height: nat)
    requires IsGrid(a, width, height) && IsGrid(b, width, height)
    requires forall x, y :: 0 <= x < width && 0 <= y < height ==> a[x][y] == b[x][y]
    ensures a == b
  {
    forall x | 0 <= x < width
      ensures a[x] == b[x]
    {
      assert forall y :: 0 <= y < height ==> a[x][y] == b[x][y];
    }
  }

  /** A `width` by `height` grid with every cell set to `v` (api/api.go:71-77, 103-109). */
  method NewGrid<T>(width: nat, height: nat, v: T) returns (g: seq<seq<T>>)
    ensures IsGrid(g, width, height)
    ensures forall x, y :: 0 <= x < width && 0 <= y < height ==> g[x][y] == v
  {
    g := [];
    var i := 0;
    while i < width
      invariant i <= width && |g| == i
      invariant forall x :: 0 <= x < i ==> |g[x]| == height
      invariant forall x, y :: 0 <= x < i && 0 <= y < height ==> g[x][y] == v
    {
      var row: seq<T> := [];
      var j := 0;
      while j < height
        invariant j <= height && |row| == j
        invariant forall y :: 0 <= y < j ==> row[y] == v
      {
        row := row + [v];
        j := j + 1;
      }
      g := g + [row];
      i := i + 1;
    }
  }

  /** Writes every snake's segments into a grid of -1s, snake by snake (api/api.go:71-101).
      The write-only `headPositions` table is not kept; only its index bound is checked. */
  method BuildOccupancy(snakes: seq<Snake>, head: Coord, width: nat, height: nat) returns (occ: seq<seq<int>>)
    requires SegmentsWritable(snakes, head, width, height)
    ensures IsGrid(occ, width, height)
    ensures forall x, y :: 0 <= x < width && 0 <= y < height ==>
              occ[x][y] == Owner(snakes, head, Coord(x, y), |snakes|)
  {
    occ := NewGrid(width, height, -1);
    var i := 0;
    while i < |snakes|
      invariant i <= |snakes|
      invariant IsGrid(occ, width, height)
      invariant forall x, y :: 0 <= x < width && 0 <= y < height ==>
                  occ[x][y] == Owner(snakes, head, Coord(x, y), i)
    {
      var body := snakes[i].body;
      var j := 0;
      while j < |body|
        invariant j <= |body|
        invariant IsGrid(occ, width, height)
        invariant forall x, y :: 0 <= x < width && 0 <= y < height ==>
                    occ[x][y] == if MarksPrefix(body, head, Coord(x, y), j) then i else Owner(snakes, head, Coord(x, y), i)
      {
        var c := body[j];
        if j == 0 && c.x != head.x && c.y != head.y {
          // the source records this head in headPositions[i][j], which nothing reads
          assert i < width && height >= 1;
        } else {
          occ := Update(occ, c, i);
        }
        j := j + 1;
      }
      i := i + 1;
    }
  }

  /** Marks every listed food cell (api/api.go:103-113). */
  method BuildFood(food: seq<Coord>, width: nat, height: nat) returns (g: seq<seq<bool>>)
    requires FoodInBounds(food, width, height)
    ensures IsGrid(g, width, height)
    ensures forall x, y :: 0 <= x < width && 0 <= y < height ==> (g[x][y] <==> Coord(x, y) in food)
  {
    g := NewGrid(width, height, false);
    var k := 0;
    while k < |food|
      invariant k <= |food|
      invariant IsGrid(g, width, height)
      invariant forall x, y :: 0 <= x < width && 0 <= y < height ==> (g[x][y] <==> Coord(x, y) in food[..k])
    {
      g := Update(g, food[k], true);
      assert food[..k + 1] == food[..k] + [food[k]];
      k := k + 1;
    }
    assert food[..k] == food;
  }
}
