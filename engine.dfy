/** `GetMove` (api/api.go:57-200): the per-turn entry point, holding the process-wide map from
    game id to the head position the engine tracks, and the last four scores. */
module MoveEngine {
  import opened Types
  import opened Grids
  import opened Scoring
  import opened Selection

  /** The direction a move name stands for. */
  function Named(move: string): (d: Direction)
    requires move in {"down", "up", "left", "right"}
    ensures Name(d) == move
  {
    if move == "down" then Down else if move == "up" then Up else if move == "left" then Left else Right
  }

  /** The head the engine reasons from: the tracked one, or the reported head for a new game (api/api.go:64-69). */
  function TrackedHead(gameHeads: map<string, Coord>, state: SnakeRequest): Coord
    requires state.game.id in gameHeads || |state.you.body| >= 1
  {
    if state.game.id in gameHeads then gameHeads[state.game.id] else state.you.body[0]
  }

  /** The position of a direction in the order the depth-0 calls run in this model. */
  function Rank(d: Direction): int {
    match d
    case Down => 0
    case Up => 1
    case Left => 2
    case Right => 3
  }

  /** The depth-0 call that runs just before the one for `d`. */
  function Previous(d: Direction): (e: Direction)
    requires d != Down
    ensures Rank(e) == Rank(d) - 1
  {
    match d
    case Up => Down
    case Left => Up
    case Right => Left
  }

  /** The shared grid as the depth-0 call for `d` finds it: each earlier feasible call has
      made its in-place tail write (api/api.go:315-319) before the next one starts. */
  function ScheduledGrid(state: SnakeRequest, occ: seq<seq<int>>, food: seq<seq<bool>>, head: Coord, d: Direction): (g: seq<seq<int>>)
    requires Snapshot(state, occ, food) && InBounds(head, state.board.width, state.board.height)
    ensures IsGrid(g, state.board.width, state.board.height)
    decreases Rank(d)
  {
    if d == Down then occ
    else
      var e := Previous(d);
      var before := ScheduledGrid(state, occ, food, head, e);
      if CanMove(occ, state.board.width, state.board.height, head, e) then RetractTail(state, before, food, Step(head, e))
      else before
  }

  /** The racing writes on the shared grid only ever free the controlled snake's tail, so
      every depth-0 call still starts on a free cell. */
  lemma {:induction false} ScheduledGridFreesOnlyTail(state: SnakeRequest, occ: seq<seq<int>>, food: seq<seq<bool>>, head: Coord, d: Direction)
    requires Snapshot(state, occ, food) && InBounds(head, state.board.width, state.board.height)
    ensures forall c :: InBounds(c, state.board.width, state.board.height) ==>
              At(ScheduledGrid(state, occ, food, head, d), c) == At(occ, c) ||
              (c == Tail(state.you) && At(ScheduledGrid(state, occ, food, head, d), c) == -1)
    ensures CanMove(occ, state.board.width, state.board.height, head, d) ==>
              At(ScheduledGrid(state, occ, food, head, d), Step(head, d)) == -1
    decreases Rank(d)
  {
    if d != Down {
      ScheduledGridFreesOnlyTail(state, occ, food, head, Previous(d));
    }
  }

  /** The score of one direction at depth 0 (api/api.go:145-167): the estimator for a
      feasible move, the immediate-death value otherwise. */
  function DirectionScore(cfg: Config, state: SnakeRequest, head: Coord, occ: seq<seq<int>>, food: seq<seq<bool>>, d: Direction): int
    requires cfg.Valid() && Snapshot(state, occ, food)
    requires InBounds(head, state.board.width, state.board.height)
  {
    if CanMove(occ, state.board.width, state.board.height, head, d) then
      ScheduledGridFreesOnlyTail(state, occ, food, head, d);
      Estimate(cfg, state, Step(head, d), ScheduledGrid(state, occ, food, head, d), food, 0)
    else cfg.immediateDeathValue
  }

  /** The four depth-0 scores (api/api.go:131-172); the concurrent calls are taken to run
      one after another in the order down, up, left, right on the one shared grid. */
  function MoveScores(cfg: Config, state: SnakeRequest, head: Coord, occ: seq<seq<int>>, food: seq<seq<bool>>): (scores: map<string, int>)
    requires cfg.Valid() && Snapshot(state, occ, food)
    requires InBounds(head, state.board.width, state.board.height)
    ensures scores.Keys == {"down", "up", "left", "right"}
    ensures forall d :: !CanMove(occ, state.board.width, state.board.height, head, d) ==>
              scores[Name(d)] == cfg.immediateDeathValue
  {
    map["down" := DirectionScore(cfg, state, head, occ, food, Down),
        "up" := DirectionScore(cfg, state, head, occ, food, Up),
        "left" := DirectionScore(cfg, state, head, occ, food, Left),
        "right" := DirectionScore(cfg, state, head, occ, food, Right)]
  }

  /** A feasible direction scores what the collision-free reading of the estimator gives on
      the grid its call sees. */
  lemma MoveScoresAreFreeScores(cfg: Config, state: SnakeRequest, head: Coord, occ: seq<seq<int>>, food: seq<seq<bool>>, d: Direction)
    requires cfg.Valid() && Snapshot(state, occ, food)
    requires InBounds(head, state.board.width, state.board.height)
    requires CanMove(occ, state.board.width, state.board.height, head, d)
    ensures Snapshot(state, ScheduledGrid(state, occ, food, head, d), food)
    ensures At(ScheduledGrid(state, occ, food, head, d), Step(head, d)) == -1
    ensures MoveScores(cfg, state, head, occ, food)[Name(d)] ==
            FreeScore(cfg, state, Step(head, d), ScheduledGrid(state, occ, food, head, d), food, 0)
  {
    ScheduledGridFreesOnlyTail(state, occ, food, head, d);
    EstimateMatchesFreeScore(cfg, state, Step(head, d), ScheduledGrid(state, occ, food, head, d), food, 0);
  }

  /** The map's entries listed in `order`, the order Go's map iteration happens to take. */
  function Entries(scores: map<string, int>, order: seq<Direction>): (entries: seq<(string, int)>)
    requires forall d :: Name(d) in scores
    ensures |entries| == |order|
    ensures forall k :: 0 <= k < |order| ==> entries[k] == (Name(order[k]), scores[Name(order[k])])
  {
    if order == [] then [] else [(Name(order[0]), scores[Name(order[0])])] + Entries(scores, order[1..])
  }

  /** `move` names a direction with a largest score, and no direction before it in `order` scores as much. */
  predicate IsFirstMaximum(scores: map<string, int>, order: seq<Direction>, move: string)
    requires forall d :: Name(d) in scores
  {
    exists k :: 0 <= k < |order| && move == Name(order[k]) &&
      (forall d :: scores[Name(d)] <= scores[move]) &&
      (forall j :: 0 <= j < k ==> scores[Name(order[j])] < scores[move])
  }

  /** What `MapMaxIndex` promises about the entries, read back on the score map: the chosen key
      names a direction, and without a -1 score it is the first largest in iteration order. */
  lemma ChosenIsFirstMaximum(scores: map<string, int>, order: seq<Direction>, maxIndex: string)
    requires forall d :: Name(d) in scores
    requires |order| == 4 && forall d :: d in order
    requires exists k :: 0 <= k < 4 && Entries(scores, order)[k].0 == maxIndex
    requires NoSentinel(Entries(scores, order)) ==>
               exists k :: FirstMaximum(Entries(scores, order), k) && Entries(scores, order)[k].0 == maxIndex
    ensures exists d :: maxIndex == Name(d)
    ensures (forall d :: scores[Name(d)] != -1) ==> IsFirstMaximum(scores, order, maxIndex)
  {
    var entries := Entries(scores, order);
    if forall d :: scores[Name(d)] != -1 {
      assert NoSentinel(entries);
      var k :| FirstMaximum(entries, k) && entries[k].0 == maxIndex;
      forall d
        ensures scores[Name(d)] <= scores[maxIndex]
      {
        assert d in order;
        var j :| 0 <= j < 4 && order[j] == d;
        assert entries[j].1 <= entries[k].1;
      }
      forall j | 0 <= j < k
        ensures scores[Name(order[j])] < scores[maxIndex]
      {
        assert entries[j].1 < entries[k].1;
      }
    }
  }

  /** What one turn needs so that no grid access goes out of range. */
  predicate TurnReady(cfg: Config, state: SnakeRequest, head: Coord) {
    var w, h := state.board.width, state.board.height;
    cfg.Valid() && w >= 0 && h >= 0 &&
    |state.you.body| >= 1 && InBounds(Tail(state.you), w, h) &&
    InBounds(head, w, h) &&
    SegmentsWritable(state.board.snakes, head, w, h) &&
    FoodInBounds(state.board.food, w, h)
  }

  /** The four scores of a turn, computed from the grids the turn's snakes and food give. */
  function TurnScores(cfg: Config, state: SnakeRequest, head: Coord): (scores: map<string, int>)
    requires TurnReady(cfg, state, head)
    ensures scores.Keys == {"down", "up", "left", "right"}
  {
    var occ := OccupancyGrid(state.board.snakes, head, state.board.width, state.board.height);
    var food := FoodGrid(state.board.food, state.board.width, state.board.height);
    MoveScores(cfg, state, head, occ, food)
  }

  /** Builds the grids for this turn and scores the four directions from `head` (api/api.go:71-172). */
  method ScoreTurn(cfg: Config, state: SnakeRequest, head: Coord) returns (estimatedValue: map<string, int>)
    requires TurnReady(cfg, state, head)
    ensures estimatedValue == TurnScores(cfg, state, head)
  {
    var w: nat, h: nat := state.board.width, state.board.height;
    var occ := BuildOccupancy(state.board.snakes, head, w, h);
    var food := BuildFood(state.board.food, w, h);
    GridExtensionality(occ, OccupancyGrid(state.board.snakes, head, w, h), w, h);
    GridExtensionality(food, FoodGrid(state.board.food, w, h), w, h);
    estimatedValue := MoveScores(cfg, state, head, occ, food);
  }

  /** The branch chain at the end of a turn (api/api.go:183-199): the move named by the chosen
      key and the head one step that way; any other key falls through to "right". */
  function Advance(head: Coord, maxIndex: string): (r: (Coord, string))
    ensures r.1 in {"down", "up", "left", "right"}
    ensures r.0 == Step(head, Named(r.1))
    ensures maxIndex in {"down", "up", "left", "right"} ==> r.1 == maxIndex
  {
    if maxIndex == "down" then (head.(y := head.y + 1), "down")
    else if maxIndex == "up" then (head.(y := head.y - 1), "up")
    else if maxIndex == "left" then (head.(x := head.x - 1), "left")
    else (head.(x := head.x + 1), "right")
  }

  lemma UpdateTwice<K, V>(m: map<K, V>, k: K, a: V, b: V)
    ensures m[k := a][k := b] == m[k := b]
  {
  }

  /** The engine's process-wide state: the head tracked per game, and the last four scores. */
  class Engine {
    var gameHeads: map<string, Coord>
    var previousEstimates: map<string, int>

    constructor ()
      ensures gameHeads == map[] && previousEstimates == map[]
    {
      gameHeads := map[];
      previousEstimates := map[];
    }

    /** Decides this turn's move (api/api.go:60-200). `order` is the order in which Go's map
        iteration in `MapMaxIndex` visits the four directions; any order is allowed. */
    method GetMove(cfg: Config, state: SnakeRequest, order: seq<Direction>) returns (move: string)
      requires |state.you.body| >= 1
      requires TurnReady(cfg, state, TrackedHead(gameHeads, state))
      requires |order| == 4 && forall d :: d in order
      modifies this
      ensures previousEstimates == TurnScores(cfg, state, TrackedHead(old(gameHeads), state))
      ensures move in {"down", "up", "left", "right"}
      ensures gameHeads == old(gameHeads)[state.game.id := Step(TrackedHead(old(gameHeads), state), Named(move))]
      ensures (forall d :: previousEstimates[Name(d)] != -1) ==> IsFirstMaximum(previousEstimates, order, move)
    {
      var id := state.game.id;
      if id !in gameHeads {
        gameHeads := gameHeads[id := state.you.body[0]];
      }
      var head := gameHeads[id];
      ghost var start := head;
      var estimatedValue := ScoreTurn(cfg, state, head);
      var entries := Entries(estimatedValue, order);
      var maxIndex := MapMaxIndex(entries);
      ChosenIsFirstMaximum(estimatedValue, order, maxIndex);
      previousEstimates := estimatedValue;

      var advanced := Advance(head, maxIndex);
      head, move := advanced.0, advanced.1;
      gameHeads := gameHeads[id := head];
      if id !in old(gameHeads) {
        UpdateTwice(old(gameHeads), id, start, head);
      }
    }
  }
}
