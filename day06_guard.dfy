/** Day 6 of 2024 (node_runner/src/solved/index.day6.ts): a guard walks a lab grid,
    going forward until an obstacle `#` is ahead and then turning right. The walk either
    leaves the grid or comes back to a state (cell and heading) it was in before, which
    is a loop. Part 2 counts the free cells where one extra obstacle traps the guard in a
    loop. The grid is the input's lines as rows of characters; rows may differ in
    length, and a cell past the end of its row is free. */
module Day06Guard {
  import opened Wrappers
  import opened JsText

  datatype Direction = Up | Right | Down | Left
  datatype Position = Position(x: int, y: int)
  datatype GuardState = GuardState(position: Position, direction: Direction)

  type Grid = seq<seq<char>>

  /** `parseGrid`: the trimmed input's lines, each as its sequence of characters. */
  function ParseGrid(input: string): (g: Grid)
    ensures |g| >= 1
  {
    Split(Trim(input), "\n")
  }

  // ---------------------------------------------------------------- the guard's start

  /** The first index at or after `i` where `row` holds `c`. */
  function FirstIndexFrom(row: seq<char>, c: char, i: nat): (r: Option<nat>)
    requires i <= |row|
    ensures r.Some? ==> i <= r.value < |row| && row[r.value] == c
    ensures forall j :: i <= j < |row| && (r.None? || j < r.value) ==> row[j] != c
    decreases |row| - i
  {
    if i == |row| then None
    else if row[i] == c then Some(i)
    else FirstIndexFrom(row, c, i + 1)
  }

  /** The first `^` in row-major order, searching from row `y`. */
  function GuardStartFrom(grid: Grid, y: nat): (r: Option<Position>)
    requires y <= |grid|
    decreases |grid| - y
  {
    if y == |grid| then None
    else match FirstIndexFrom(grid[y], '^', 0)
      case Some(x) => Some(Position(x, y))
      case None => GuardStartFrom(grid, y + 1)
  }

  /** Cell (x, y) of a (possibly ragged) grid holds `^`. */
  predicate CaretAt(grid: Grid, x: int, y: int) {
    0 <= y < |grid| && 0 <= x < |grid[y]| && grid[y][x] == '^'
  }

  /** Where `findGuardStart` finds the guard. */
  function GuardStart(grid: Grid): Option<Position> {
    GuardStartFrom(grid, 0)
  }

  /** The start is the first `^` in row-major order, and there is none when no cell
      holds one. */
  lemma {:induction false} GuardStartFirst(grid: Grid, y: nat)
    requires y <= |grid|
    ensures GuardStartFrom(grid, y).None? ==> forall cx, cy :: y <= cy ==> !CaretAt(grid, cx, cy)
    ensures GuardStartFrom(grid, y).Some? ==>
      var p := GuardStartFrom(grid, y).value;
      y <= p.y && CaretAt(grid, p.x, p.y)
      && (forall cx, cy :: y <= cy < p.y ==> !CaretAt(grid, cx, cy))
      && (forall cx :: cx < p.x ==> !CaretAt(grid, cx, p.y))
    decreases |grid| - y
  {
    if y < |grid| && FirstIndexFrom(grid[y], '^', 0).None? {
      GuardStartFirst(grid, y + 1);
    }
  }

  /** Replacing a non-`^` cell by a non-`^` character does not move the first `^`. */
  lemma {:induction false} FirstIndexReplaced(row: seq<char>, x: nat, c: char, i: nat)
    requires i <= |row| && x < |row| && row[x] != '^' && c != '^'
    ensures FirstIndexFrom(row[x := c], '^', i) == FirstIndexFrom(row, '^', i)
    decreases |row| - i
  {
    if i < |row| {
      FirstIndexReplaced(row, x, c, i + 1);
    }
  }

  /** Placing an obstacle on a `.` cell leaves the guard's start where it was. */
  lemma {:induction false} PlaceKeepsStart(grid: Grid, x: nat, y: nat, from: nat)
    requires y < |grid| && x < |grid[y]| && grid[y][x] == '.' && from <= |grid|
    ensures GuardStartFrom(Place(grid, x, y), from) == GuardStartFrom(grid, from)
    decreases |grid| - from
  {
    if from < |grid| {
      if from == y {
        FirstIndexReplaced(grid[y], x, '#', 0);
      }
      PlaceKeepsStart(grid, x, y, from + 1);
    }
  }

  /** `findGuardStart`: the two loops scan rows top to bottom and each row left to right
      for the first `^`. */
  method FindGuardStart(grid: Grid) returns (r: Option<Position>)
    ensures r == GuardStart(grid)
  {
    var y := 0;
    while y < |grid|
      invariant 0 <= y <= |grid|
      invariant GuardStart(grid) == GuardStartFrom(grid, y)
    {
      var x := 0;
      while x < |grid[y]|
        invariant 0 <= x <= |grid[y]|
        invariant FirstIndexFrom(grid[y], '^', 0) == FirstIndexFrom(grid[y], '^', x)
      {
        if grid[y][x] == '^' {
          return Some(Position(x, y));
        }
        x := x + 1;
      }
      y := y + 1;
    }
    return None;
  }

  // ---------------------------------------------------------------- one step

  /** The position of a heading in `['up', 'right', 'down', 'left']`. */
  function Index(d: Direction): nat {
    match d
    case Up => 0
    case Right => 1
    case Down => 2
    case Left => 3
  }

  /** `turnRight`: the next heading in the list, wrapping from `left` to `up`. */
  function TurnRight(d: Direction): (r: Direction)
    ensures Index(r) == (Index(d) + 1) % 4
  {
    match d
    case Up => Right
    case Right => Down
    case Down => Left
    case Left => Up
  }

  /** Four right turns bring the guard back to its heading, and fewer do not. */
  lemma FourTurns(d: Direction)
    ensures TurnRight(TurnRight(TurnRight(TurnRight(d)))) == d
    ensures TurnRight(d) != d && TurnRight(TurnRight(d)) != d && TurnRight(TurnRight(TurnRight(d))) != d
  {
  }

  /** `getNextPosition`: one cell ahead, with `y` growing downwards. */
  function GetNextPosition(p: Position, d: Direction): (r: Position)
    ensures (r.x == p.x && (r.y - p.y == 1 || p.y - r.y == 1)) || (r.y == p.y && (r.x - p.x == 1 || p.x - r.x == 1))
    ensures r.y < p.y <==> d == Up
    ensures r.x > p.x <==> d == Right
    ensures r.y > p.y <==> d == Down
    ensures r.x < p.x <==> d == Left
  {
    match d
    case Up => Position(p.x, p.y - 1)
    case Right => Position(p.x + 1, p.y)
    case Down => Position(p.x, p.y + 1)
    case Left => Position(p.x - 1, p.y)
  }

  /** Turning around twice and stepping back undoes a step. */
  lemma StepBack(p: Position, d: Direction)
    ensures GetNextPosition(GetNextPosition(p, d), TurnRight(TurnRight(d))) == p
  {
  }

  /** `isValidPosition`: inside the grid, whose width is that of its first row. */
  predicate IsValidPosition(p: Position, grid: Grid)
    requires |grid| > 0
  {
    0 <= p.y < |grid| && 0 <= p.x < |grid[0]|
  }

  /** `isObstacle`: the cell holds `#`; a cell past the end of its row does not. */
  predicate IsObstacle(p: Position, grid: Grid)
    requires 0 <= p.y < |grid| && 0 <= p.x
  {
    p.x < |grid[p.y]| && grid[p.y][p.x] == '#'
  }

  /** One pass of the loop body: `None` when the guard steps off the grid; otherwise it
      turns right in place in front of an obstacle, or moves one cell onto a cell that is
      not an obstacle. */
  function Step(grid: Grid, s: GuardState): (r: Option<GuardState>)
    requires |grid| > 0
    ensures r.None? <==> !IsValidPosition(GetNextPosition(s.position, s.direction), grid)
    ensures r.Some? ==> (IsValidPosition(GetNextPosition(s.position, s.direction), grid)
      && ((r.value.position == s.position && r.value.direction == TurnRight(s.direction)
           && IsObstacle(GetNextPosition(s.position, s.direction), grid))
          || (r.value.position == GetNextPosition(s.position, s.direction) && r.value.direction == s.direction
              && !IsObstacle(r.value.position, grid))))
  {
    var next := GetNextPosition(s.position, s.direction);
    if !IsValidPosition(next, grid) then None
    else if IsObstacle(next, grid) then Some(GuardState(s.position, TurnRight(s.direction)))
    else Some(GuardState(next, s.direction))
  }

  // ---------------------------------------------------------------- the walk

  /** The guard's state after `n` passes, or `None` once it has left the grid. */
  function Walk(grid: Grid, s: GuardState, n: nat): Option<GuardState>
    requires |grid| > 0
  {
    if n == 0 then Some(s)
    else match Walk(grid, s, n - 1)
      case None => None
      case Some(t) => Step(grid, t)
  }

  /** The guard, starting in state `s`, eventually steps off the grid. */
  ghost predicate Leaves(grid: Grid, s: GuardState)
    requires |grid| > 0
  {
    exists n: nat :: Walk(grid, s, n).None?
  }

  /** Walking `n = a + b` passes from a state still on the grid after `a` passes is
      walking `b` more from there. */
  lemma {:induction false} WalkSplit(grid: Grid, s: GuardState, a: nat, b: nat, n: nat)
    requires |grid| > 0 && n == a + b && Walk(grid, s, a).Some?
    ensures Walk(grid, s, n) == Walk(grid, Walk(grid, s, a).value, b)
  {
    if b > 0 {
      WalkSplit(grid, s, a, b - 1, n - 1);
    }
  }

  /** Once off the grid, the guard stays off. */
  lemma {:induction false} WalkStaysOff(grid: Grid, s: GuardState, k: nat, n: nat)
    requires |grid| > 0 && k <= n && Walk(grid, s, k).None?
    ensures Walk(grid, s, n).None?
    decreases n - k
  {
    if k < n {
      WalkStaysOff(grid, s, k + 1, n);
    }
  }

  /** A state that comes back makes the walk periodic, so the guard never leaves. */
  lemma RepeatNeverLeaves(grid: Grid, s: GuardState, i: nat, j: nat)
    requires |grid| > 0 && i < j && Walk(grid, s, j).Some? && Walk(grid, s, i) == Walk(grid, s, j)
    ensures !Leaves(grid, s)
  {
    forall n: nat ensures Walk(grid, s, n).Some? {
      PeriodicSome(grid, s, i, j, n);
    }
  }

  lemma {:induction false} PeriodicSome(grid: Grid, s: GuardState, i: nat, j: nat, n: nat)
    requires |grid| > 0 && i < j && Walk(grid, s, j).Some? && Walk(grid, s, i) == Walk(grid, s, j)
    ensures Walk(grid, s, n).Some?
    decreases n
  {
    if n <= j {
      if Walk(grid, s, n).None? {
        WalkStaysOff(grid, s, n, j);
      }
    } else {
      ShiftBack(grid, s, i, j, n);
      PeriodicSome(grid, s, i, j, n - (j - i));
    }
  }

  /** Past a repeat, the walk is the same one period earlier. */
  lemma ShiftBack(grid: Grid, s: GuardState, i: nat, j: nat, n: nat)
    requires |grid| > 0 && i < j < n && Walk(grid, s, j).Some? && Walk(grid, s, i) == Walk(grid, s, j)
    ensures Walk(grid, s, n) == Walk(grid, s, n - (j - i))
  {
    var t := Walk(grid, s, j).value;
    var b: nat := n - j;
    WalkSplit(grid, s, j, b, n);
    WalkSplit(grid, s, i, b, n - (j - i));
    assert Walk(grid, s, i).value == t;
    assert Walk(grid, s, n) == Walk(grid, t, b) == Walk(grid, s, n - (j - i));
  }

  /** The states of the first `n` passes. */
  ghost function StatesBefore(grid: Grid, s: GuardState, n: nat): set<GuardState>
    requires |grid| > 0
  {
    set k | 0 <= k < n && Walk(grid, s, k).Some? :: Walk(grid, s, k).value
  }

  /** The cells of the first `n` passes. */
  ghost function CellsBefore(grid: Grid, s: GuardState, n: nat): set<Position>
    requires |grid| > 0
  {
    set k | 0 <= k < n && Walk(grid, s, k).Some? :: Walk(grid, s, k).value.position
  }

  /** Pass `j` is the first to come back to an earlier state: the states before it are
      all different, and its own state is one of them. */
  ghost predicate FirstRepeat(grid: Grid, s: GuardState, j: nat)
    requires |grid| > 0
  {
    Walk(grid, s, j).Some? && |StatesBefore(grid, s, j)| == j && Walk(grid, s, j).value in StatesBefore(grid, s, j)
  }

  /** One more pass adds its state and its cell. */
  lemma BeforeStep(grid: Grid, s: GuardState, n: nat)
    requires |grid| > 0 && Walk(grid, s, n).Some?
    ensures StatesBefore(grid, s, n + 1) == StatesBefore(grid, s, n) + {Walk(grid, s, n).value}
    ensures CellsBefore(grid, s, n + 1) == CellsBefore(grid, s, n) + {Walk(grid, s, n).value.position}
  {
  }

  /** A pass whose state is among the distinct states before it is the first repeat,
      and the guard never leaves. */
  lemma RepeatFound(grid: Grid, s: GuardState, n: nat)
    requires |grid| > 0 && Walk(grid, s, n).Some?
    requires |StatesBefore(grid, s, n)| == n && Walk(grid, s, n).value in StatesBefore(grid, s, n)
    ensures FirstRepeat(grid, s, n) && !Leaves(grid, s)
  {
    var i :| 0 <= i < n && Walk(grid, s, i).Some? && Walk(grid, s, i).value == Walk(grid, s, n).value;
    RepeatNeverLeaves(grid, s, i, n);
  }

  /** A guard facing off the grid after `n` passes leaves it. */
  lemma ExitFound(grid: Grid, s: GuardState, n: nat)
    requires |grid| > 0 && Walk(grid, s, n).Some?
    requires !IsValidPosition(GetNextPosition(Walk(grid, s, n).value.position, Walk(grid, s, n).value.direction), grid)
    ensures Leaves(grid, s)
  {
    assert Walk(grid, s, n + 1).None?;
  }

  /** The states the guard can be in: any heading on a cell of the grid or on its start. */
  ghost function Reachable(grid: Grid, start: Position): set<GuardState>
    requires |grid| > 0
  {
    (set x, y, d | 0 <= x < |grid[0]| && 0 <= y < |grid| && d in {Up, Right, Down, Left}
       :: GuardState(Position(x, y), d))
    + (set d | d in {Up, Right, Down, Left} :: GuardState(start, d))
  }

  lemma InReachable(grid: Grid, start: Position, s: GuardState)
    requires |grid| > 0 && (IsValidPosition(s.position, grid) || s.position == start)
    ensures s in Reachable(grid, start)
  {
    assert s == GuardState(Position(s.position.x, s.position.y), s.direction);
    match s.direction {
      case Up =>
      case Right =>
      case Down =>
      case Left =>
    }
  }

  /** Recording a new reachable state leaves fewer unrecorded ones. */
  lemma Fewer(all: set<GuardState>, seen: set<GuardState>, s: GuardState)
    requires s in all && s !in seen
    ensures |all - (seen + {s})| < |all - seen|
  {
    assert all - seen == (all - (seen + {s})) + {s};
  }

  /** The next pass follows from the current state by one step. */
  lemma WalkNext(grid: Grid, s: GuardState, n: nat)
    requires |grid| > 0 && Walk(grid, s, n).Some?
    ensures Walk(grid, s, n + 1) == Step(grid, Walk(grid, s, n).value)
  {
  }

  /** The `while (true)` loop of `simulateGuardMovement` from state `start`: `None` when
      the guard steps off the grid, and otherwise the cells visited before the first
      repeated state. The loop ends because every pass records a new state and only
      finitely many states are reachable. */
  method Patrol(grid: Grid, start: GuardState) returns (r: Option<set<Position>>)
    requires |grid| > 0
    ensures r.Some? <==> !Leaves(grid, start)
    ensures r.Some? ==> exists j: nat :: FirstRepeat(grid, start, j) && r.value == CellsBefore(grid, start, j)
  {
    var visitedPositions: set<Position> := {};
    var stateHistory: set<GuardState> := {};
    var currentState := start;
    ghost var n: nat := 0;
    ghost var reachable := Reachable(grid, start.position);
    InReachable(grid, start.position, start);
    while true
      invariant Walk(grid, start, n) == Some(currentState)
      invariant stateHistory == StatesBefore(grid, start, n) && |stateHistory| == n
      invariant visitedPositions == CellsBefore(grid, start, n)
      invariant stateHistory <= reachable && currentState in reachable
      invariant IsValidPosition(currentState.position, grid) || currentState.position == start.position
      decreases |reachable - stateHistory|
    {
      if currentState in stateHistory {
        RepeatFound(grid, start, n);
        return Some(visitedPositions);
      }
      BeforeStep(grid, start, n);
      Fewer(reachable, stateHistory, currentState);
      WalkNext(grid, start, n);
      stateHistory := stateHistory + {currentState};
      visitedPositions := visitedPositions + {currentState.position};
      var nextPos := GetNextPosition(currentState.position, currentState.direction);
      if !IsValidPosition(nextPos, grid) {
        ExitFound(grid, start, n);
        return None;
      }
      if IsObstacle(nextPos, grid) {
        currentState := GuardState(currentState.position, TurnRight(currentState.direction));
      } else {
        currentState := GuardState(nextPos, currentState.direction);
      }
      n := n + 1;
      InReachable(grid, start.position, currentState);
    }
  }

  /** `simulateGuardMovement`: no guard gives `None` (`null`); otherwise the guard starts
      on the first `^` facing up, and the result is that of its patrol. */
  method SimulateGuardMovement(grid: Grid) returns (r: Option<set<Position>>)
    ensures GuardStart(grid).None? ==> r.None?
    ensures GuardStart(grid).Some? ==> (|grid| > 0
      && (r.Some? <==> !Leaves(grid, GuardState(GuardStart(grid).value, Up)))
      && (r.Some? ==> exists j: nat :: FirstRepeat(grid, GuardState(GuardStart(grid).value, Up), j)
                                      && r.value == CellsBefore(grid, GuardState(GuardStart(grid).value, Up), j)))
  {
    var startPos := FindGuardStart(grid);
    if startPos.None? {
      return None;
    }
    GuardStartFirst(grid, 0);
    r := Patrol(grid, GuardState(startPos.value, Up));
  }

  // ---------------------------------------------------------------- part 2

  /** The grid with an obstacle written at (x, y). */
  function Place(grid: Grid, x: nat, y: nat): (g: Grid)
    requires y < |grid| && x < |grid[y]|
    ensures |g| == |grid| && forall k :: 0 <= k < |grid| ==> |g[k]| == |grid[k]|
  {
    grid[y := grid[y][x := '#']]
  }

  /** A free cell other than the start where an extra obstacle traps the guard. */
  ghost predicate Traps(grid: Grid, start: Position, x: nat, y: nat)
    requires y < |grid|
  {
    x < |grid[y]| && grid[y][x] == '.' && Position(x, y) != start
    && !Leaves(Place(grid, x, y), GuardState(start, Up))
  }

  /** The trapping cells among those the two loops of `solve_pt2` visit before (x, y),
      in row-major order over the width of the first row. */
  ghost function TrapsBefore(grid: Grid, start: Position, y: nat, x: nat): set<Position>
    requires |grid| > 0
  {
    set cy: nat, cx: nat | cy < |grid| && cx < |grid[0]| && (cy < y || (cy == y && cx < x))
                           && Traps(grid, start, cx, cy) :: Position(cx, cy)
  }

  /** One more cell of the scan adds it when it traps the guard. */
  lemma TrapsStep(grid: Grid, start: Position, y: nat, x: nat)
    requires |grid| > 0 && y < |grid| && x < |grid[0]|
    ensures Position(x, y) !in TrapsBefore(grid, start, y, x)
    ensures TrapsBefore(grid, start, y, x + 1)
            == TrapsBefore(grid, start, y, x) + (if Traps(grid, start, x, y) then {Position(x, y)} else {})
  {
  }

  /** The end of a row is the start of the next. */
  lemma TrapsRow(grid: Grid, start: Position, y: nat)
    requires |grid| > 0
    ensures TrapsBefore(grid, start, y, |grid[0]|) == TrapsBefore(grid, start, y + 1, 0)
  {
  }

  /** Writing `.` back over the obstacle restores the grid. */
  lemma PlaceUndone(lab: Grid, x: nat, y: nat)
    requires y < |lab| && x < |lab[y]| && lab[y][x] == '.'
    ensures Place(lab, x, y)[y := Place(lab, x, y)[y][x := '.']] == lab
  {
    assert lab[y][x := '#'][x := '.'] == lab[y];
  }

  /** A trial on a free cell other than the start finds a loop exactly when the cell
      traps the guard. */
  lemma TrialMeans(lab: Grid, start: Position, x: nat, y: nat, found: bool)
    requires y < |lab| && x < |lab[y]| && lab[y][x] == '.' && Position(x, y) != start
    requires found <==> !Leaves(Place(lab, x, y), GuardState(start, Up))
    ensures found <==> Traps(lab, start, x, y)
  {
  }

  /** The inner loop of `solve_pt2` over row `y`: each `.` cell other than the start
      gets an obstacle, the walk is simulated, and the cell is set back to `.`, so the
      grid is unchanged after every trial. */
  method ScanRow(lab: Grid, start: Position, y: nat, before: nat) returns (loopCount: nat)
    requires y < |lab| && GuardStart(lab) == Some(start)
    requires before == |TrapsBefore(lab, start, y, 0)|
    ensures loopCount == |TrapsBefore(lab, start, y + 1, 0)|
  {
    var grid := lab;
    loopCount := before;
    var x := 0;
    while x < |grid[0]|
      invariant grid == lab && 0 <= x <= |grid[0]|
      invariant loopCount == |TrapsBefore(lab, start, y, x)|
    {
      ghost var trapped := false;
      if x < |grid[y]| && grid[y][x] == '.' && (x != start.x || y != start.y) {
        grid := grid[y := grid[y][x := '#']];
        assert grid == Place(lab, x, y);
        PlaceKeepsStart(lab, x, y, 0);
        var result := SimulateGuardMovement(grid);
        TrialMeans(lab, start, x, y, result.Some?);
        if result.Some? {
          loopCount := loopCount + 1;
        }
        trapped := result.Some?;
        PlaceUndone(lab, x, y);
        grid := grid[y := grid[y][x := '.']];
      }
      CountStep(lab, start, y, x, trapped);
      x := x + 1;
    }
    TrapsRow(lab, start, y);
  }

  /** The count grows by one exactly at a trapping cell. */
  lemma CountStep(lab: Grid, start: Position, y: nat, x: nat, trapped: bool)
    requires y < |lab| && x < |lab[0]|
    requires trapped <==> Traps(lab, start, x, y)
    ensures |TrapsBefore(lab, start, y, x + 1)| == |TrapsBefore(lab, start, y, x)| + (if trapped then 1 else 0)
  {
    TrapsStep(lab, start, y, x);
  }

  /** The outer loop of `solve_pt2`: the number of trapping cells of the whole grid. */
  method CountLoopObstacles(lab: Grid, start: Position) returns (loopCount: nat)
    requires |lab| > 0 && GuardStart(lab) == Some(start)
    ensures loopCount == |TrapsBefore(lab, start, |lab|, 0)|
  {
    loopCount := 0;
    var y := 0;
    assert TrapsBefore(lab, start, 0, 0) == {};
    while y < |lab|
      invariant 0 <= y <= |lab|
      invariant loopCount == |TrapsBefore(lab, start, y, 0)|
    {
      loopCount := ScanRow(lab, start, y, loopCount);
      y := y + 1;
    }
  }

  /** `solve_pt2`: an error when the grid has no guard, and otherwise the number of cells
      where one extra obstacle traps the guard in a loop. */
  method SolvePt2(input: string) returns (r: Result<nat>)
    ensures GuardStart(ParseGrid(input)).None? ==> r == Err("No guard start position found")
    ensures GuardStart(ParseGrid(input)).Some? ==>
      r == Ok(|TrapsBefore(ParseGrid(input), GuardStart(ParseGrid(input)).value, |ParseGrid(input)|, 0)|)
  {
    var grid := ParseGrid(input);
    var startPos := FindGuardStart(grid);
    if startPos.None? {
      return Err("No guard start position found");
    }
    var loopCount := CountLoopObstacles(grid, startPos.value);
    return Ok(loopCount);
  }
}
