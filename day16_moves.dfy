/** Day 16: a reindeer walks a maze from `S` to `E`. A step forward costs 1 and a quarter
    turn in place costs 1000. This module holds what both Day 16 programs share: the
    positions, `move`, `getRotations`, the scan for `S` and `E`, and the pruning test
    `canPossiblyReachEnd`. */
module Day16Moves {
  import opened JsText

  /** `Direction`: North 0, East 1, South 2, West 3. */
  type Dir = d: int | 0 <= d < 4

  const North: Dir := 0
  const East: Dir := 1
  const South: Dir := 2
  const West: Dir := 3

  datatype Point = Point(x: int, y: int)

  /** A cell and a facing: what the search keys its `visited` map on. */
  datatype State = State(cell: Point, dir: Dir)

  /** A search item: where the reindeer is, where it faces, what it has paid so far and the
      cells it has stood on. */
  datatype Position = Position(x: int, y: int, direction: Dir, score: nat, path: set<Point>)

  function CellOf(pos: Position): Point { Point(pos.x, pos.y) }

  function StateOf(pos: Position): State { State(CellOf(pos), pos.direction) }

  /** The cell one step ahead when facing `d`; north is up, so it lowers `y`. */
  function Ahead(p: Point, d: Dir): Point {
    if d == North then Point(p.x, p.y - 1)
    else if d == East then Point(p.x + 1, p.y)
    else if d == South then Point(p.x, p.y + 1)
    else Point(p.x - 1, p.y)
  }

  /** A quarter turn to the left: `(d + 3) % 4`. */
  function Left(d: Dir): Dir { (d + 3) % 4 }

  /** A quarter turn to the right: `(d + 1) % 4`. */
  function Right(d: Dir): Dir { (d + 1) % 4 }

  /** A turn left undoes a turn right and the other way round; two turns either way face
      back, and a step there undoes a step ahead. */
  lemma TurnsUndo(p: Point, d: Dir)
    ensures Left(Right(d)) == d && Right(Left(d)) == d
    ensures Left(d) != d && Right(d) != d && Left(d) != Right(d)
    ensures Left(Left(d)) == Right(Right(d))
    ensures Ahead(Ahead(p, d), Left(Left(d))) == p
  {
    if d == North {
    } else if d == East {
    } else if d == South {
    } else {
    }
  }

  /** The test in `move`: inside the width of the first row and the number of rows, and not
      `#`. A cell past the end of a shorter row reads `undefined`, which is not `#`. */
  predicate Open(grid: seq<string>, p: Point)
    requires grid != []
  {
    0 <= p.x < |grid[0]| && 0 <= p.y < |grid| && !(p.x < |grid[p.y]| && grid[p.y][p.x] == '#')
  }

  /** `move`: one step forward onto an open cell, one point dearer, with the cell added to
      the path; nothing when the cell ahead is not open. */
  function Move(pos: Position, grid: seq<string>): (r: seq<Position>)
    requires grid != []
    ensures |r| <= 1
    ensures r != [] <==> Open(grid, Ahead(CellOf(pos), pos.direction))
    ensures r != [] ==> CellOf(r[0]) == Ahead(CellOf(pos), pos.direction) && CellOf(r[0]) in r[0].path
    ensures r != [] ==> r[0].direction == pos.direction && r[0].score == pos.score + 1
    ensures r != [] ==> pos.path <= r[0].path && r[0].path - pos.path <= {CellOf(r[0])}
  {
    var next := Ahead(CellOf(pos), pos.direction);
    if Open(grid, next) then
      [Position(next.x, next.y, pos.direction, pos.score + 1, pos.path + {next})]
    else []
  }

  /** `getRotations`: the left turn, then the right turn, each in place, 1000 dearer and with
      the path unchanged. */
  function GetRotations(pos: Position): (r: seq<Position>)
    ensures |r| == 2 && r[0] != r[1]
    ensures forall k :: 0 <= k < 2 ==>
      CellOf(r[k]) == CellOf(pos) && r[k].score == pos.score + 1000 && r[k].path == pos.path
    ensures r[0].direction == Left(pos.direction) && r[1].direction == Right(pos.direction)
  {
    [pos.(direction := Left(pos.direction), score := pos.score + 1000),
     pos.(direction := Right(pos.direction), score := pos.score + 1000)]
  }

  /** What the search loops push for one item: `move` followed by `getRotations`. */
  function Successors(grid: seq<string>, pos: Position): seq<Position>
    requires grid != []
  {
    Move(pos, grid) + GetRotations(pos)
  }

  /** Every successor is a step forward onto an open cell or a quarter turn, and costs
      more than the item it came from. */
  lemma SuccessorKinds(grid: seq<string>, pos: Position, q: Position)
    requires grid != [] && q in Successors(grid, pos)
    ensures (q.score == pos.score + 1 && q.direction == pos.direction &&
             CellOf(q) == Ahead(CellOf(pos), pos.direction) && Open(grid, CellOf(q))) ||
            (q.score == pos.score + 1000 && CellOf(q) == CellOf(pos) &&
             (q.direction == Left(pos.direction) || q.direction == Right(pos.direction)))
    ensures q.score > pos.score
  {
    var r := GetRotations(pos);
    if q !in Move(pos, grid) {
      assert q == r[0] || q == r[1];
    }
  }

  // ---------------------------------------------------------------------------------
  // Walks

  /** A walk: each item is one of the successors of the one before. */
  ghost predicate IsChain(grid: seq<string>, c: seq<Position>)
    requires grid != []
  {
    forall k :: 0 <= k < |c| - 1 ==> c[k + 1] in Successors(grid, c[k])
  }

  lemma ChainTail(grid: seq<string>, c: seq<Position>)
    requires grid != [] && |c| > 0 && IsChain(grid, c)
    ensures IsChain(grid, c[1..])
  {
    forall k | 0 <= k < |c[1..]| - 1 ensures c[1..][k + 1] in Successors(grid, c[1..][k]) {
      assert c[1..][k] == c[k + 1] && c[1..][k + 1] == c[k + 2];
    }
  }

  function Abs(v: int): nat { if v < 0 then -v else v }

  // ---------------------------------------------------------------------------------
  // The pruning test of the second program

  /** `minRotations` as `canPossiblyReachEnd` counts it: two when facing away from the end
      along the facing's own axis, plus one more when the other coordinate differs. */
  function MinRotations(d: Dir, dx: int, dy: int): nat {
    if d == East then (if dx < 0 then 2 else 0) + (if dy != 0 then 1 else 0)
    else if d == West then (if dx > 0 then 2 else 0) + (if dy != 0 then 1 else 0)
    else if d == North then (if dy > 0 then 2 else 0) + (if dx != 0 then 1 else 0)
    else (if dy < 0 then 2 else 0) + (if dx != 0 then 1 else 0)
  }

  /** `canPossiblyReachEnd` as written. */
  predicate CanPossiblyReachEnd(pos: Position, end: Point, targetScore: int) {
    var dx, dy := end.x - pos.x, end.y - pos.y;
    targetScore - pos.score >= Abs(dx) + Abs(dy) + MinRotations(pos.direction, dx, dy) * 1000
  }

  /** The fewest quarter turns any walk needs: two when facing away along the facing's own
      axis (a U-turn, which also faces the other axis on the way), otherwise one when the
      other coordinate differs. */
  function Turns(d: Dir, dx: int, dy: int): nat {
    var away := (d == East && dx < 0) || (d == West && dx > 0) || (d == North && dy > 0) || (d == South && dy < 0);
    var across := if d == East || d == West then dy != 0 else dx != 0;
    if away then 2 else if across then 1 else 0
  }

  /** The least score any walk from `pos` to `end` adds. */
  function LowerBound(pos: Position, end: Point): nat {
    var dx, dy := end.x - pos.x, end.y - pos.y;
    Abs(dx) + Abs(dy) + Turns(pos.direction, dx, dy) * 1000
  }

  /** The corrected pruning test: the remaining budget covers the least score still needed. */
  predicate CanStillReachEnd(pos: Position, end: Point, targetScore: int) {
    targetScore - pos.score >= LowerBound(pos, end)
  }

  /** The test as written demands at least as much as the corrected one, so it prunes every
      position the corrected test prunes, and more. */
  lemma PossiblyImpliesStill(pos: Position, end: Point, targetScore: int)
    ensures CanPossiblyReachEnd(pos, end, targetScore) ==> CanStillReachEnd(pos, end, targetScore)
  {
    var dx, dy := end.x - pos.x, end.y - pos.y;
    assert Turns(pos.direction, dx, dy) <= MinRotations(pos.direction, dx, dy);
  }

  /** One step of a walk lowers the bound by at most what the step costs. */
  lemma BoundStep(grid: seq<string>, pos: Position, q: Position, end: Point)
    requires grid != [] && q in Successors(grid, pos)
    ensures LowerBound(pos, end) <= q.score - pos.score + LowerBound(q, end)
  {
    SuccessorKinds(grid, pos, q);
  }

  /** Every walk that ends on the end cell pays at least the bound from where it starts. */
  lemma {:induction false} ChainBound(grid: seq<string>, c: seq<Position>, end: Point)
    requires grid != [] && |c| > 0 && IsChain(grid, c) && CellOf(c[|c| - 1]) == end
    ensures c[|c| - 1].score >= c[0].score + LowerBound(c[0], end)
    decreases |c|
  {
    if |c| > 1 {
      ChainTail(grid, c);
      ChainBound(grid, c[1..], end);
      BoundStep(grid, c[0], c[1], end);
      assert c[1..][|c[1..]| - 1] == c[|c| - 1];
    }
  }

  /** The corrected test never prunes a position from which the end is still reachable
      within the target score. */
  lemma StillReachSound(grid: seq<string>, c: seq<Position>, end: Point, targetScore: int)
    requires grid != [] && |c| > 0 && IsChain(grid, c)
    requires CellOf(c[|c| - 1]) == end && c[|c| - 1].score <= targetScore
    ensures CanStillReachEnd(c[0], end, targetScore)
  {
    ChainBound(grid, c, end);
  }

  /** A 6 by 6 maze with no walls. */
  const OpenMaze: seq<string> := ["......", "......", "......", "......", "......", "......"]

  /** From (5,5) facing East: turn left, step north twice, turn left, step west twice. */
  function WalkToEnd(): (c: seq<Position>)
    ensures |c| == 7 && c[0] == Position(5, 5, East, 0, {})
    ensures CellOf(c[6]) == Point(3, 3) && c[6].score == 2004
  {
    [Position(5, 5, East, 0, {}),
     Position(5, 5, North, 1000, {}),
     Position(5, 4, North, 1001, {Point(5, 4)}),
     Position(5, 3, North, 1002, {Point(5, 4), Point(5, 3)}),
     Position(5, 3, West, 2002, {Point(5, 4), Point(5, 3)}),
     Position(4, 3, West, 2003, {Point(5, 4), Point(5, 3), Point(4, 3)}),
     Position(3, 3, West, 2004, {Point(5, 4), Point(5, 3), Point(4, 3), Point(3, 3)})]
  }

  /** Each item of that walk is pushed by the one before it. */
  lemma WalkStep(k: nat)
    requires k < 6
    ensures WalkToEnd()[k + 1] in Successors(OpenMaze, WalkToEnd()[k])
  {
    var c := WalkToEnd();
    if k == 0 || k == 3 {
      assert c[k + 1] == GetRotations(c[k])[0];
    } else {
      var next := Ahead(CellOf(c[k]), c[k].direction);
      assert OpenMaze[next.y][next.x] == '.';
      assert c[k + 1] == Move(c[k], OpenMaze)[0];
    }
  }

  /** The test as written prunes a position whose end is reachable within the target: at
      (5,5) facing East with the end at (3,3) and 2004 points left, it asks for 3004, though
      turning left, stepping north twice, turning left and stepping west twice costs 2004. */
  lemma PossiblyPrunesReachable()
    ensures var start := Position(5, 5, East, 0, {});
      !CanPossiblyReachEnd(start, Point(3, 3), 2004) && CanStillReachEnd(start, Point(3, 3), 2004) &&
      exists c: seq<Position> :: |c| > 0 && c[0] == start && IsChain(OpenMaze, c) &&
        CellOf(c[|c| - 1]) == Point(3, 3) && c[|c| - 1].score == 2004
  {
    var c := WalkToEnd();
    forall k | 0 <= k < |c| - 1 ensures c[k + 1] in Successors(OpenMaze, c[k]) {
      WalkStep(k);
    }
    assert IsChain(OpenMaze, c);
  }

  // ---------------------------------------------------------------------------------
  // Finding S and E

  /** Cell `q` exists and holds `ch`. */
  predicate Holds(grid: seq<string>, q: Point, ch: char) {
    0 <= q.y < |grid| && 0 <= q.x < |grid[q.y]| && grid[q.y][q.x] == ch
  }

  /** `q` comes before column x of row y in row-major order. */
  predicate Before(q: Point, y: int, x: int) {
    q.y < y || (q.y == y && q.x < x)
  }

  /** Of the cells scanned before (y, x), `p` is the last that holds `ch`, or none does and
      `p` is the default (0, 0). */
  ghost predicate LastSeen(grid: seq<string>, ch: char, p: Point, y: int, x: int) {
    if exists q :: Holds(grid, q, ch) && Before(q, y, x) then
      Holds(grid, p, ch) && Before(p, y, x) &&
      forall q :: Holds(grid, q, ch) && Before(q, y, x) ==> !Before(p, q.y, q.x)
    else p == Point(0, 0)
  }

  /** Scanning cell (y, x) keeps `p` unless the cell holds `ch`, in which case it is the new
      last one. */
  lemma SeenStep(grid: seq<string>, ch: char, p: Point, y: nat, x: nat)
    requires y < |grid| && x < |grid[y]| && LastSeen(grid, ch, p, y, x)
    ensures grid[y][x] == ch ==> LastSeen(grid, ch, Point(x, y), y, x + 1)
    ensures grid[y][x] != ch ==> LastSeen(grid, ch, p, y, x + 1)
  {
    if grid[y][x] == ch {
      assert Holds(grid, Point(x, y), ch) && Before(Point(x, y), y, x + 1);
    } else {
      forall q | Holds(grid, q, ch) && Before(q, y, x + 1) ensures Before(q, y, x) {
      }
    }
  }

  /** The end of a row is the start of the next one. */
  lemma SeenRow(grid: seq<string>, ch: char, p: Point, y: nat)
    requires y < |grid| && LastSeen(grid, ch, p, y, |grid[y]|)
    ensures LastSeen(grid, ch, p, y + 1, 0)
  {
    forall q | Holds(grid, q, ch) ensures Before(q, y + 1, 0) <==> Before(q, y, |grid[y]|) {
    }
  }

  /** The scan that opens `solve` and `solve_pt2`: `start` is the last `S` and `end` the last
      `E` in row-major order, each (0, 0) when there is none. */
  method FindStartEnd(grid: seq<string>) returns (start: Point, end: Point)
    ensures LastSeen(grid, 'S', start, |grid|, 0) && LastSeen(grid, 'E', end, |grid|, 0)
  {
    start, end := Point(0, 0), Point(0, 0);
    for y := 0 to |grid|
      invariant LastSeen(grid, 'S', start, y, 0) && LastSeen(grid, 'E', end, y, 0)
    {
      start, end := ScanRow(grid, y, start, end);
    }
  }

  /** One row of that scan. */
  method ScanRow(grid: seq<string>, y: nat, start0: Point, end0: Point) returns (start: Point, end: Point)
    requires y < |grid| && LastSeen(grid, 'S', start0, y, 0) && LastSeen(grid, 'E', end0, y, 0)
    ensures LastSeen(grid, 'S', start, y + 1, 0) && LastSeen(grid, 'E', end, y + 1, 0)
  {
    start, end := start0, end0;
    for x := 0 to |grid[y]|
      invariant LastSeen(grid, 'S', start, y, x) && LastSeen(grid, 'E', end, y, x)
    {
      start, end := ScanCell(grid, y, x, start, end);
    }
    SeenRow(grid, 'S', start, y);
    SeenRow(grid, 'E', end, y);
  }

  /** One cell of that scan: an `S` becomes the start, an `E` the end. */
  method ScanCell(grid: seq<string>, y: nat, x: nat, start0: Point, end0: Point)
    returns (start: Point, end: Point)
    requires y < |grid| && x < |grid[y]|
    requires LastSeen(grid, 'S', start0, y, x) && LastSeen(grid, 'E', end0, y, x)
    ensures LastSeen(grid, 'S', start, y, x + 1) && LastSeen(grid, 'E', end, y, x + 1)
  {
    SeenStep(grid, 'S', start0, y, x);
    SeenStep(grid, 'E', end0, y, x);
    start, end := start0, end0;
    if grid[y][x] == 'S' {
      start := Point(x, y);
    } else if grid[y][x] == 'E' {
      end := Point(x, y);
    }
  }

  /** The scan finds `ch` exactly when the grid holds it, and then at a cell that holds it. */
  lemma LastSeenFound(grid: seq<string>, ch: char, p: Point)
    requires LastSeen(grid, ch, p, |grid|, 0)
    ensures (exists q :: Holds(grid, q, ch)) ==> Holds(grid, p, ch)
    ensures (forall q :: !Holds(grid, q, ch)) ==> p == Point(0, 0)
  {
    if exists q :: Holds(grid, q, ch) {
      var q :| Holds(grid, q, ch);
      assert Before(q, |grid|, 0);
    }
  }

  /** The scan's answer is determined: two points both last seen for `ch` are the same. */
  lemma LastSeenUnique(grid: seq<string>, ch: char, p: Point, p': Point, y: int, x: int)
    requires LastSeen(grid, ch, p, y, x) && LastSeen(grid, ch, p', y, x)
    ensures p == p'
  {
    if exists q :: Holds(grid, q, ch) && Before(q, y, x) {
      assert !Before(p, p'.y, p'.x) && !Before(p', p.y, p.x);
    }
  }

  /** `input.split('\n')`: the rows of the maze, never an empty list. */
  function Rows(input: string): (grid: seq<string>)
    ensures grid != [] && Join(grid, "\n") == input
  {
    Split(input, "\n")
  }
}
