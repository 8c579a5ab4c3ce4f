/** Day 15, part 2, first attempt (node_runner/src/index.ts): a `WideWarehouse` keeps a
    boolean wall grid twice as wide as the map, a list of two-cell boxes (by their left
    edge) and the robot. Pushes never chain, a vertical push is always refused, and the
    left-push test looks at a cell the pushed box itself covers, so only right pushes of a
    single box ever succeed. */
module Day15BoxList {
  import opened Wrappers
  import opened JsText

  datatype Pos = Pos(x: int, y: int)

  /** The message of the `TypeError` JavaScript throws on an `undefined` value. */
  const TypeError := "TypeError: Cannot read properties of undefined"

  /** Wall cell `c` of a wide row: the map character at `c / 2` is `#`. */
  function WallRow(line: string, w: nat): (r: seq<bool>)
    ensures |r| == w
    ensures forall c :: 0 <= c < w ==> r[c] == (c / 2 < |line| && line[c / 2] == '#')
  {
    seq(w, c requires 0 <= c < w => c / 2 < |line| && line[c / 2] == '#')
  }

  /** The wall grid `parseMap` fills: `height` rows of `width` cells. */
  function WallGrid(lines: seq<string>, w: nat): (r: seq<seq<bool>>)
    ensures |r| == |lines| && forall y :: 0 <= y < |lines| ==> r[y] == WallRow(lines[y], w)
  {
    seq(|lines|, y requires 0 <= y < |lines| => WallRow(lines[y], w))
  }

  /** The boxes of one map row in the first `x` characters, by wide left edge `2x`. */
  function RowBoxes(line: string, y: int, x: nat): seq<Pos>
    requires x <= |line|
  {
    if x == 0 then []
    else RowBoxes(line, y, x - 1) + (if line[x - 1] == 'O' then [Pos(2 * (x - 1), y)] else [])
  }

  /** The boxes of the first `y` rows in row-major order. */
  function GridBoxes(lines: seq<string>, y: nat): seq<Pos>
    requires y <= |lines|
  {
    if y == 0 then [] else GridBoxes(lines, y - 1) + RowBoxes(lines[y - 1], y - 1, |lines[y - 1]|)
  }

  /** The last `@` among the first `x` characters of a row, on top of `prev`. */
  function RowRobot(line: string, y: int, x: nat, prev: Option<Pos>): Option<Pos>
    requires x <= |line|
  {
    if x == 0 then prev
    else if line[x - 1] == '@' then Some(Pos(2 * (x - 1), y))
    else RowRobot(line, y, x - 1, prev)
  }

  /** The last `@` of the first `y` rows; `parseMap` overwrites the robot at each one. */
  function GridRobot(lines: seq<string>, y: nat): Option<Pos>
    requires y <= |lines|
  {
    if y == 0 then None else RowRobot(lines[y - 1], y - 1, |lines[y - 1]|, GridRobot(lines, y - 1))
  }

  lemma {:induction false} RowBoxesCells(line: string, y: int, x: nat, k: int)
    requires x <= |line| && 0 <= k < |RowBoxes(line, y, x)|
    ensures var b := RowBoxes(line, y, x)[k];
      b.y == y && b.x % 2 == 0 && 0 <= b.x / 2 < x && line[b.x / 2] == 'O'
  {
    if k < |RowBoxes(line, y, x - 1)| {
      RowBoxesCells(line, y, x - 1, k);
    }
  }

  /** `parseMap`: every box stands at an even wide column whose map character is `O`. */
  lemma {:induction false} GridBoxesCells(lines: seq<string>, y: nat, k: int)
    requires y <= |lines| && 0 <= k < |GridBoxes(lines, y)|
    ensures var b := GridBoxes(lines, y)[k];
      0 <= b.y < y && b.x % 2 == 0 && 0 <= b.x / 2 < |lines[b.y]| && lines[b.y][b.x / 2] == 'O'
  {
    var before := GridBoxes(lines, y - 1);
    if k < |before| {
      GridBoxesCells(lines, y - 1, k);
    } else {
      RowBoxesCells(lines[y - 1], y - 1, |lines[y - 1]|, k - |before|);
    }
  }

  lemma {:induction false} RowRobotCell(line: string, y: int, x: nat, prev: Option<Pos>)
    requires x <= |line| && RowRobot(line, y, x, prev) != prev
    ensures var r := RowRobot(line, y, x, prev);
      r.Some? && r.value.y == y && r.value.x % 2 == 0 && 0 <= r.value.x / 2 < x && line[r.value.x / 2] == '@'
  {
    if line[x - 1] != '@' {
      RowRobotCell(line, y, x - 1, prev);
    }
  }

  /** `parseMap`: the robot stands at an even wide column whose map character is `@`, and
      there is a robot exactly when the map holds an `@`. */
  lemma {:induction false} GridRobotCell(lines: seq<string>, y: nat)
    requires y <= |lines|
    ensures var r := GridRobot(lines, y);
      (r.Some? ==>
         0 <= r.value.y < y && r.value.x % 2 == 0 && 0 <= r.value.x / 2 < |lines[r.value.y]|
         && lines[r.value.y][r.value.x / 2] == '@')
      && (r.Some? <==> exists yy, xx :: 0 <= yy < y && 0 <= xx < |lines[yy]| && lines[yy][xx] == '@')
  {
    if y > 0 {
      GridRobotCell(lines, y - 1);
      var prev := GridRobot(lines, y - 1);
      var line := lines[y - 1];
      if RowRobot(line, y - 1, |line|, prev) != prev {
        RowRobotCell(line, y - 1, |line|, prev);
        var r := RowRobot(line, y - 1, |line|, prev).value;
        assert lines[r.y][r.x / 2] == '@';
      } else if prev.None? {
        RowRobotNone(line, y - 1, |line|);
        forall yy, xx | 0 <= yy < y && 0 <= xx < |lines[yy]| ensures lines[yy][xx] != '@' {
          if yy == y - 1 {
            assert line[xx] != '@';
          }
        }
      }
    }
  }

  lemma {:induction false} RowRobotNone(line: string, y: int, x: nat)
    requires x <= |line| && RowRobot(line, y, x, None) == None
    ensures forall i :: 0 <= i < x ==> line[i] != '@'
  {
    if x > 0 {
      RowRobotNone(line, y, x - 1);
    }
  }

  /** `covers`: a box covers its left edge and the cell to its right. */
  predicate Covers(b: Pos, x: int, y: int) { (b.x == x || b.x + 1 == x) && b.y == y }

  /** `isBoxAt`: some box covers the cell. */
  predicate IsBoxAt(boxes: seq<Pos>, x: int, y: int) {
    exists i :: 0 <= i < |boxes| && Covers(boxes[i], x, y)
  }

  /** `getBoxAt`: `find` returns the first box covering the cell, here its index. */
  function BoxIndex(boxes: seq<Pos>, x: int, y: int): (i: int)
    ensures -1 <= i < |boxes|
    ensures i >= 0 ==> Covers(boxes[i], x, y) && forall j :: 0 <= j < i ==> !Covers(boxes[j], x, y)
    ensures i == -1 <==> !IsBoxAt(boxes, x, y)
  {
    if |boxes| == 0 then -1
    else if Covers(boxes[0], x, y) then 0
    else
      var i := BoxIndex(boxes[1..], x, y);
      assert forall j :: 1 <= j < |boxes| ==> boxes[j] == boxes[1..][j - 1];
      if i == -1 then -1 else i + 1
  }

  /** The fixed part of the warehouse: the wall grid and its dimensions. */
  datatype Layout = Layout(walls: seq<seq<bool>>, width: int, height: int)

  /** `isWall`: every cell outside the rectangle is a wall. */
  predicate IsWall(l: Layout, x: int, y: int) {
    if x < 0 || x >= l.width || y < 0 || y >= l.height then true
    else y < |l.walls| && x < |l.walls[y]| && l.walls[y][x]
  }

  /** `isPositionEmpty`: neither a wall nor a box cell; the robot does not count. */
  predicate IsPositionEmpty(l: Layout, boxes: seq<Pos>, x: int, y: int) {
    !IsWall(l, x, y) && !IsBoxAt(boxes, x, y)
  }

  /** `canPushBox`: a right push needs the two cells right of the box empty; both left
      branches test the cell left of the box and the box's own left edge; no other push
      (`dx` = 0) is allowed. */
  predicate CanPushBox(l: Layout, boxes: seq<Pos>, box: Pos, dx: int, hitRightSide: bool) {
    if dx > 0 then IsPositionEmpty(l, boxes, box.x + 2, box.y) && IsPositionEmpty(l, boxes, box.x + 3, box.y)
    else if dx < 0 && hitRightSide then IsPositionEmpty(l, boxes, box.x - 1, box.y) && IsPositionEmpty(l, boxes, box.x, box.y)
    else if dx < 0 then IsPositionEmpty(l, boxes, box.x - 1, box.y) && IsPositionEmpty(l, boxes, box.x, box.y)
    else false
  }

  predicate IsDirection(d: char) { d == '^' || d == 'v' || d == '<' || d == '>' }

  function DeltaX(d: char): int { if d == '<' then -1 else if d == '>' then 1 else 0 }
  function DeltaY(d: char): int { if d == '^' then -1 else if d == 'v' then 1 else 0 }

  /** The robot, the boxes and whether the last move succeeded. */
  datatype Outcome = Outcome(boxes: seq<Pos>, robot: Pos, moved: bool)

  /** One call of `move`, as a function of the state before it. */
  function Step(l: Layout, boxes: seq<Pos>, robot: Pos, d: char): (r: Outcome)
    ensures |r.boxes| == |boxes|
  {
    if !IsDirection(d) then Outcome(boxes, robot, false)
    else
      var nx := robot.x + DeltaX(d);
      var ny := robot.y + DeltaY(d);
      if IsWall(l, nx, ny) then Outcome(boxes, robot, false)
      else
        var i := BoxIndex(boxes, nx, ny);
        if i >= 0 then
          var box := boxes[i];
          if CanPushBox(l, boxes, box, DeltaX(d), box.x + 1 == nx) then
            Outcome(boxes[i := Pos(box.x + DeltaX(d), box.y)], Pos(nx, ny), true)
          else Outcome(boxes, robot, false)
        else if IsPositionEmpty(l, boxes, nx, ny) then Outcome(boxes, Pos(nx, ny), true)
        else Outcome(boxes, robot, false)
  }

  /** A character outside `^v<>` and a move into a wall (every cell off the grid is one)
      fail and change nothing. */
  lemma StepRefused(l: Layout, boxes: seq<Pos>, robot: Pos, d: char)
    requires !IsDirection(d) || IsWall(l, robot.x + DeltaX(d), robot.y + DeltaY(d))
    ensures Step(l, boxes, robot, d) == Outcome(boxes, robot, false)
  {
  }

  /** A move onto a cell that is neither a wall nor part of a box always succeeds, moves
      the robot there and leaves the boxes alone. */
  lemma FreeStepSucceeds(l: Layout, boxes: seq<Pos>, robot: Pos, d: char)
    requires IsDirection(d)
    requires IsPositionEmpty(l, boxes, robot.x + DeltaX(d), robot.y + DeltaY(d))
    ensures Step(l, boxes, robot, d) == Outcome(boxes, Pos(robot.x + DeltaX(d), robot.y + DeltaY(d)), true)
  {
  }

  /** `canPushBox` refuses every vertical push, so walking up or down into a box fails. */
  lemma VerticalPushRefused(l: Layout, boxes: seq<Pos>, robot: Pos, d: char)
    requires d == '^' || d == 'v'
    requires IsBoxAt(boxes, robot.x, robot.y + DeltaY(d))
    ensures Step(l, boxes, robot, d) == Outcome(boxes, robot, false)
  {
    var i := BoxIndex(boxes, robot.x, robot.y + DeltaY(d));
    assert i >= 0;
  }

  /** A left push tests the box's own left edge, which the box covers, so pushing a box
      left never succeeds. */
  lemma LeftPushRefused(l: Layout, boxes: seq<Pos>, robot: Pos)
    requires IsBoxAt(boxes, robot.x - 1, robot.y)
    ensures Step(l, boxes, robot, '<') == Outcome(boxes, robot, false)
  {
    var i := BoxIndex(boxes, robot.x - 1, robot.y);
    assert Covers(boxes[i], boxes[i].x, boxes[i].y);
    assert !IsPositionEmpty(l, boxes, boxes[i].x, boxes[i].y);
  }

  /** A successful push moves only the first box covering the target, by one cell to the
      right, and the robot onto the target; nothing is chained. */
  lemma PushMovesOneBox(l: Layout, boxes: seq<Pos>, robot: Pos, d: char)
    requires IsDirection(d)
    requires IsBoxAt(boxes, robot.x + DeltaX(d), robot.y + DeltaY(d))
    requires Step(l, boxes, robot, d).moved
    ensures d == '>'
    ensures var i := BoxIndex(boxes, robot.x + 1, robot.y);
      Step(l, boxes, robot, d) == Outcome(boxes[i := Pos(boxes[i].x + 1, boxes[i].y)], Pos(robot.x + 1, robot.y), true)
  {
    if d == '<' {
      LeftPushRefused(l, boxes, robot);
    } else if d == '^' || d == 'v' {
      VerticalPushRefused(l, boxes, robot, d);
    }
  }

  /** Every step keeps each box in its row and never moves a box left. */
  lemma StepBoxesDrift(l: Layout, boxes: seq<Pos>, robot: Pos, d: char)
    ensures var r := Step(l, boxes, robot, d);
      forall i :: 0 <= i < |boxes| ==> r.boxes[i].y == boxes[i].y && r.boxes[i].x >= boxes[i].x
  {
    var r := Step(l, boxes, robot, d);
    if IsDirection(d) && r.moved {
      var nx := robot.x + DeltaX(d);
      var ny := robot.y + DeltaY(d);
      if IsBoxAt(boxes, nx, ny) {
        PushMovesOneBox(l, boxes, robot, d);
      }
    }
  }

  /** All the moves of a movement string, in order. */
  function Play(l: Layout, boxes: seq<Pos>, robot: Pos, moves: string): (r: Outcome)
    ensures |r.boxes| == |boxes|
    ensures forall i :: 0 <= i < |boxes| ==> r.boxes[i].y == boxes[i].y && r.boxes[i].x >= boxes[i].x
    decreases |moves|
  {
    if moves == [] then Outcome(boxes, robot, false)
    else
      var s := Step(l, boxes, robot, moves[0]);
      StepBoxesDrift(l, boxes, robot, moves[0]);
      Play(l, s.boxes, s.robot, moves[1..])
  }

  /** `calculateGPS`: 100·y plus half the wide column, summed over the boxes; a box at an
      odd column contributes a fraction. */
  function Gps(boxes: seq<Pos>): real {
    if boxes == [] then 0.0
    else Gps(boxes[..|boxes| - 1]) + BoxGps(boxes[|boxes| - 1])
  }

  function BoxGps(b: Pos): real { (100 * b.y) as real + (b.x as real) / 2.0 }

  /** The `Error`-free shape of the input: a map part and a movement part, and an `@` in
      the map (the constructor reads `this.robot.x` and throws without one). */
  predicate Readable(input: string) {
    var parts := Split(input, "\n\n");
    |parts| >= 2 && GridRobot(Split(parts[0], "\n"), |Split(parts[0], "\n")|).Some?
  }

  /** `split('\n').join('')`: the text with its newlines removed. */
  function StripNewlines(s: string): (r: string)
    ensures r == Without(s, '\n')
  {
    JoinSplitOnChar(s, '\n');
    Join(Split(s, "\n"), "")
  }

  /** `parseMap`: row by row, the wall grid at double width, the boxes in row-major
      order and the last `@`. */
  method ParseMap(lines: seq<string>, w: nat) returns (walls: seq<seq<bool>>, found: seq<Pos>, last: Option<Pos>)
    requires w % 2 == 0
    ensures walls == WallGrid(lines, w) && found == GridBoxes(lines, |lines|) && last == GridRobot(lines, |lines|)
  {
    walls := [];
    found := [];
    last := None;
    var y := 0;
    while y < |lines|
      invariant 0 <= y <= |lines|
      invariant walls == WallGrid(lines[..y], w)
      invariant found == GridBoxes(lines, y) && last == GridRobot(lines, y)
    {
      var row, more, robot := ParseLine(lines[y], y, w, last);
      walls := walls + [row];
      found := found + more;
      last := robot;
      assert lines[..y + 1] == lines[..y] + [lines[y]];
      y := y + 1;
    }
    assert lines[..y] == lines;
  }

  /** The inner loop of `parseMap` over one map line. */
  method ParseLine(line: string, y: int, w: nat, prev: Option<Pos>) returns (row: seq<bool>, found: seq<Pos>, last: Option<Pos>)
    requires w % 2 == 0
    ensures row == WallRow(line, w) && found == RowBoxes(line, y, |line|) && last == RowRobot(line, y, |line|, prev)
  {
    row := seq(w, _ => false);
    found := [];
    last := prev;
    var x := 0;
    while x < |line|
      invariant 0 <= x <= |line| && |row| == w
      invariant forall c :: 0 <= c < w ==> row[c] == (c / 2 < x && line[c / 2] == '#')
      invariant found == RowBoxes(line, y, x)
      invariant last == RowRobot(line, y, x, prev)
    {
      var wideX := x * 2;
      assert forall c :: 0 <= c < w ==> (c / 2 == x <==> c == wideX || c == wideX + 1);
      if line[x] == '#' {
        if wideX + 1 < w {
          row := row[wideX := true][wideX + 1 := true];
        }
      } else if line[x] == 'O' {
        found := found + [Pos(wideX, y)];
      } else if line[x] == '@' {
        last := Some(Pos(wideX, y));
      }
      x := x + 1;
    }
  }

  class WideWarehouse {
    const layout: Layout
    var boxes: seq<Pos>
    var robot: Pos
    const movements: string

    /** The constructor and `parseMap`: split at the first blank line, build the wall
        grid at double width, list the boxes in row-major order and place the robot at the
        last `@`; the movements are the second part with its newlines removed, trimmed. */
    constructor (input: string)
      requires Readable(input)
      ensures var parts := Split(input, "\n\n"); var lines := Split(parts[0], "\n");
        layout == Layout(WallGrid(lines, 2 * |lines[0]|), 2 * |lines[0]|, |lines|)
        && boxes == GridBoxes(lines, |lines|)
        && Some(robot) == GridRobot(lines, |lines|)
        && movements == Trim(Without(parts[1], '\n'))
    {
      var parts := Split(input, "\n\n");
      var lines := Split(parts[0], "\n");
      var w := 2 * |lines[0]|;
      var walls, found, last := ParseMap(lines, w);
      layout := Layout(walls, w, |lines|);
      boxes := found;
      robot := last.value;
      movements := Trim(StripNewlines(parts[1]));
    }

    /** `move`: one step of the robot, pushing at most the one box it walks into. */
    method Move(d: char) returns (moved: bool)
      modifies this
      ensures Outcome(boxes, robot, moved) == Step(layout, old(boxes), old(robot), d)
    {
      var dx := 0;
      var dy := 0;
      if d == '^' { dy := -1; }
      else if d == 'v' { dy := 1; }
      else if d == '<' { dx := -1; }
      else if d == '>' { dx := 1; }
      else { return false; }
      var newX := robot.x + dx;
      var newY := robot.y + dy;
      if IsWall(layout, newX, newY) {
        return false;
      }
      var i := BoxIndex(boxes, newX, newY);
      if i >= 0 {
        var box := boxes[i];
        var hitRightSide := box.x + 1 == newX;
        if CanPushBox(layout, boxes, box, dx, hitRightSide) {
          boxes := boxes[i := Pos(box.x + dx, box.y)];
          robot := Pos(newX, newY);
          return true;
        } else {
          return false;
        }
      }
      if IsPositionEmpty(layout, boxes, newX, newY) {
        robot := Pos(newX, newY);
        return true;
      }
      return false;
    }

    /** `processMovements`: every movement character in order, then the GPS sum. */
    method ProcessMovements() returns (sum: real)
      modifies this
      ensures var r := Play(layout, old(boxes), old(robot), movements);
        boxes == r.boxes && robot == r.robot && sum == Gps(boxes)
    {
      var i := 0;
      while i < |movements|
        invariant 0 <= i <= |movements|
        invariant Play(layout, old(boxes), old(robot), movements) == Play(layout, boxes, robot, movements[i..])
      {
        var _ := Move(movements[i]);
        assert movements[i..][1..] == movements[i + 1..];
        i := i + 1;
      }
      sum := CalculateGps();
    }

    /** `calculateGPS`. */
    method CalculateGps() returns (sum: real)
      ensures sum == Gps(boxes)
    {
      sum := 0.0;
      var i := 0;
      while i < |boxes|
        invariant 0 <= i <= |boxes| && sum == Gps(boxes[..i])
      {
        assert boxes[..i + 1][..i] == boxes[..i];
        sum := sum + BoxGps(boxes[i]);
        i := i + 1;
      }
      assert boxes[..i] == boxes;
    }
  }

  /** The answer of `solve_pt2`: the GPS sum after playing the movements from the parsed
      start; a missing movement part or a map without `@` throws. */
  function Solve(input: string): Result<real> {
    if !Readable(input) then Err(TypeError)
    else
      var parts := Split(input, "\n\n");
      var lines := Split(parts[0], "\n");
      var l := Layout(WallGrid(lines, 2 * |lines[0]|), 2 * |lines[0]|, |lines|);
      Ok(Gps(Play(l, GridBoxes(lines, |lines|), GridRobot(lines, |lines|).value, Trim(Without(parts[1], '\n'))).boxes))
  }

  /** `solve_pt2`. */
  method SolvePart2(input: string) returns (r: Result<real>)
    ensures r == Solve(input)
  {
    if !Readable(input) {
      return Err(TypeError);
    }
    var w := new WideWarehouse(input);
    var sum := w.ProcessMovements();
    r := Ok(sum);
  }
}
