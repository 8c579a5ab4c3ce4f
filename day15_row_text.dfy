/** Day 15, part 2, second attempt (work/02_PUZZLE_SOLUTION/index.ts): a `WideWarehouse`
    keeps the widened map as a list of row strings and the robot's column and row. A move
    rebuilds the rows it touches. The box-push test compares the box's target cells with
    `.` although they overlap the box itself, so a well-formed box is never pushed. */
module Day15RowText {
  import opened Wrappers
  import opened JsText

  /** The characters one map character widens into. */
  function WidenChar(c: char): (r: string)
    ensures |r| == 2
  {
    match c
    case '#' => "##"
    case 'O' => "[]"
    case '.' => ".."
    case '@' => "@."
    case _ => [c, c]
  }

  /** `transformMap` on one line: every character replaced by its two. */
  function WidenLine(s: string): string {
    if s == [] then [] else WidenLine(s[..|s| - 1]) + WidenChar(s[|s| - 1])
  }

  /** A widened line is twice as long, and characters 2i and 2i + 1 are what character i
      widens into. */
  lemma {:induction false} WidenLineAt(s: string)
    ensures |WidenLine(s)| == 2 * |s|
    ensures forall i :: 0 <= i < |s| ==> WidenLine(s)[2 * i..2 * i + 2] == WidenChar(s[i])
  {
    if s != [] {
      var init := s[..|s| - 1];
      WidenLineAt(init);
      var a := WidenLine(init);
      var b := WidenChar(s[|s| - 1]);
      assert WidenLine(s) == a + b;
      forall i | 0 <= i < |s| ensures WidenLine(s)[2 * i..2 * i + 2] == WidenChar(s[i]) {
        if i < |init| {
          assert (a + b)[2 * i..2 * i + 2] == a[2 * i..2 * i + 2];
          assert s[i] == init[i];
        } else {
          assert (a + b)[2 * i..2 * i + 2] == b;
        }
      }
    }
  }

  /** The loop of `transformMap` over one line. */
  method TransformLine(line: string) returns (newLine: string)
    ensures newLine == WidenLine(line)
  {
    newLine := "";
    var i := 0;
    while i < |line|
      invariant 0 <= i <= |line| && newLine == WidenLine(line[..i])
    {
      assert line[..i + 1][..i] == line[..i];
      newLine := newLine + WidenChar(line[i]);
      i := i + 1;
    }
    assert line[..i] == line;
  }

  /** `transformMap`. */
  method TransformMap(input: seq<string>) returns (rows: seq<string>)
    ensures |rows| == |input| && forall y :: 0 <= y < |input| ==> rows[y] == WidenLine(input[y])
  {
    rows := [];
    var y := 0;
    while y < |input|
      invariant 0 <= y <= |input| && |rows| == y
      invariant forall k :: 0 <= k < y ==> rows[k] == WidenLine(input[k])
    {
      var line := TransformLine(input[y]);
      rows := rows + [line];
      y := y + 1;
    }
  }

  datatype Pos = Pos(x: int, y: int)

  /** The robot `findRobot` finds from row `y` on: the first `@` of the first row holding
      one. */
  function RobotFrom(rows: seq<string>, y: nat): (r: Option<Pos>)
    requires y <= |rows|
    ensures r.Some? ==>
      (y <= r.value.y < |rows| && 0 <= r.value.x < |rows[r.value.y]|
       && rows[r.value.y][r.value.x] == '@'
       && (forall x :: 0 <= x < r.value.x ==> rows[r.value.y][x] != '@')
       && (forall k, x :: y <= k < r.value.y && 0 <= x < |rows[k]| ==> rows[k][x] != '@'))
    ensures r.None? ==> forall k, x :: y <= k < |rows| && 0 <= x < |rows[k]| ==> rows[k][x] != '@'
    decreases |rows| - y
  {
    if y == |rows| then None
    else
      var x := IndexOf(rows[y], "@", 0);
      NoAtBefore(rows[y], x);
      if x != -1 then Some(Pos(x, y)) else RobotFrom(rows, y + 1)
  }

  /** `indexOf('@')` finds the first `@` of a row, and -1 means the row has none. */
  lemma NoAtBefore(row: string, x: int)
    requires x == IndexOf(row, "@", 0)
    ensures x != -1 ==> 0 <= x < |row| && row[x] == '@'
    ensures forall i :: 0 <= i < |row| && (x == -1 || i < x) ==> row[i] != '@'
  {
    forall i | 0 <= i < |row| && (x == -1 || i < x) ensures row[i] != '@' {
      assert !OccursAt(row, "@", i);
      assert row[i..i + 1] == [row[i]];
    }
    if x != -1 {
      assert row[x..x + 1] == "@";
    }
  }

  /** A cell read: `row[i]` is `c` (out of range it is `undefined`, which equals no
      character). */
  predicate CellIs(row: string, i: int, c: char) { 0 <= i < |row| && row[i] == c }

  /** `row = s.split(''); row[i] = c; row.join('')`: past the end the array grows with
      holes, which `join` turns into nothing, so the character is appended. */
  function Put(row: string, i: nat, c: char): (r: string)
    ensures i < |row| ==> r == row[i := c]
    ensures i >= |row| ==> r == row + [c]
  {
    if i < |row| then row[i := c] else row + [c]
  }

  /** The new target cell for a move; any other character leaves the robot's own cell. */
  function Target(x: int, y: int, d: char): Pos {
    match d
    case '>' => Pos(x + 1, y)
    case '<' => Pos(x - 1, y)
    case '^' => Pos(x, y - 1)
    case 'v' => Pos(x, y + 1)
    case _ => Pos(x, y)
  }

  /** The fixed size the constructor reads off the widened map. */
  datatype Size = Size(width: int, height: int)

  /** `canPushBox` with its call of `moveBox`: `None` when the push is refused, otherwise
      the rows after the box was rewritten at its new columns. A vertical push keeps the
      box's columns. */
  function PushBox(rows: seq<string>, size: Size, boxX: nat, boxY: nat, d: char): (r: Option<seq<string>>)
    requires boxY < |rows| && (CellIs(rows[boxY], boxX, '[') || CellIs(rows[boxY], boxX, ']'))
    ensures r.Some? ==> |r.value| == |rows|
  {
    var row := rows[boxY];
    var leftX := if CellIs(row, boxX, '[') then boxX else boxX - 1;
    var rightX := leftX + 1;
    var shift := if d == '>' then 1 else if d == '<' then -1 else 0;
    var newLeftX := leftX + shift;
    var newRightX := rightX + shift;
    if newLeftX < 0 || newRightX >= size.width then None
    else if !CellIs(row, newLeftX, '.') || !CellIs(row, newRightX, '.') then None
    else
      // A `]` in column 0 pushed right would need that `]` to be `.`.
      assert leftX >= 0;
      Some(rows[boxY := Put(Put(Put(Put(row, leftX, '.'), rightX, '.'), newLeftX, '['), newRightX, ']')])
  }

  /** A box cell whose partner is where it belongs. */
  predicate WellFormedAt(row: string, x: int) {
    (CellIs(row, x, '[') && CellIs(row, x + 1, ']')) || (CellIs(row, x, ']') && CellIs(row, x - 1, '['))
  }

  /** Every push of a well-formed box is refused, in every direction: the target cells
      overlap the box's own `[` or `]`, which are not `.`. */
  lemma PushOfPairRefused(rows: seq<string>, size: Size, boxX: nat, boxY: nat, d: char)
    requires boxY < |rows| && WellFormedAt(rows[boxY], boxX)
    ensures PushBox(rows, size, boxX, boxY, d).None?
  {
  }

  /** `isValidMove` with the push it may perform: refused off the grid and at `#`, a box
      cell decides by `canPushBox` (whose rows, if pushed, come back), anything else is
      allowed. */
  function ValidMove(rows: seq<string>, size: Size, nx: int, ny: int, d: char): (r: Option<seq<string>>)
    requires size.height == |rows|
    ensures r.Some? ==> |r.value| == |rows|
  {
    if ny < 0 || ny >= size.height || nx < 0 || nx >= size.width then None
    else if CellIs(rows[ny], nx, '#') then None
    else if CellIs(rows[ny], nx, '[') || CellIs(rows[ny], nx, ']') then PushBox(rows, size, nx, ny, d)
    else Some(rows)
  }

  /** The rows, robot and result of one call of `move`. */
  datatype Outcome = Outcome(rows: seq<string>, robot: Pos, moved: bool)

  /** One call of `move`: after a valid move the robot's two old cells become `.`, and
      then `@` and `.` are written at the new column and the one right of it. */
  function Step(rows: seq<string>, size: Size, robot: Pos, d: char): (r: Outcome)
    requires size.height == |rows| && 0 <= robot.y < |rows| && 0 <= robot.x
    ensures |r.rows| == |rows| && 0 <= r.robot.y < |rows| && 0 <= r.robot.x
  {
    var t := Target(robot.x, robot.y, d);
    match ValidMove(rows, size, t.x, t.y, d)
    case None => Outcome(rows, robot, false)
    case Some(m1) =>
      var m2 := m1[robot.y := Put(Put(m1[robot.y], robot.x, '.'), robot.x + 1, '.')];
      var m3 := m2[t.y := Put(Put(m2[t.y], t.x, '@'), t.x + 1, '.')];
      Outcome(m3, t, true)
  }

  /** A refused move changes nothing; a target off the grid or on `#` is refused. */
  lemma StepRefused(rows: seq<string>, size: Size, robot: Pos, d: char)
    requires size.height == |rows| && 0 <= robot.y < |rows| && 0 <= robot.x
    requires var t := Target(robot.x, robot.y, d);
      t.y < 0 || t.y >= size.height || t.x < 0 || t.x >= size.width || CellIs(rows[t.y], t.x, '#')
    ensures Step(rows, size, robot, d) == Outcome(rows, robot, false)
  {
  }

  /** With the robot shown on its own cell, a character outside `<>^v` is a valid move to
      that same cell: the move reports success and the robot stays. */
  lemma UnknownDirectionStays(rows: seq<string>, size: Size, robot: Pos, d: char)
    requires size.height == |rows| && 0 <= robot.y < |rows| && 0 <= robot.x < size.width
    requires CellIs(rows[robot.y], robot.x, '@')
    requires d != '>' && d != '<' && d != '^' && d != 'v'
    ensures var r := Step(rows, size, robot, d); r.moved && r.robot == robot
  {
  }

  /** After a successful move the target shows `@` and the cell right of it `.`, whatever
      was there before, provided the target row reached that column. */
  lemma StepWritesRobot(rows: seq<string>, size: Size, robot: Pos, d: char)
    requires size.height == |rows| && 0 <= robot.y < |rows| && 0 <= robot.x
    requires Step(rows, size, robot, d).moved
    ensures var r := Step(rows, size, robot, d);
      r.robot == Target(robot.x, robot.y, d) && |r.rows[r.robot.y]| >= r.robot.x + 2
      ==> CellIs(r.rows[r.robot.y], r.robot.x, '@') && CellIs(r.rows[r.robot.y], r.robot.x + 1, '.')
  {
  }

  /** The overwrite of the cell right of the target can split a box: from `@.[]`, a step
      right leaves `.@.]` with a lone `]`. */
  lemma StepCanSplitBox()
    ensures Step(["@.[]"], Size(4, 1), Pos(0, 0), '>') == Outcome([".@.]"], Pos(1, 0), true)
  {
    var rows := ["@.[]"];
    assert ValidMove(rows, Size(4, 1), 1, 0, '>') == Some(rows);
    assert Put(Put("@.[]", 0, '.'), 1, '.') == "..[]";
    assert Put(Put("..[]", 1, '@'), 2, '.') == ".@.]";
  }

  /** GPS sum of the first `x` cells of a row: 100·y + x/2 over the `[` cells. */
  function RowGps(row: string, y: int, x: nat): real {
    if x == 0 then 0.0
    else RowGps(row, y, x - 1) + (if CellIs(row, x - 1, '[') then (100 * y) as real + ((x - 1) as real) / 2.0 else 0.0)
  }

  /** GPS sum of the first `y` rows, reading `width` columns of each. */
  function GridGps(rows: seq<string>, w: nat, y: nat): real
    requires y <= |rows|
  {
    if y == 0 then 0.0 else GridGps(rows, w, y - 1) + RowGps(rows[y - 1], y - 1, w)
  }

  /** A row without `[` in the columns read contributes nothing. */
  lemma {:induction false} RowGpsNoBoxes(row: string, y: int, x: nat)
    requires forall i :: 0 <= i < x ==> !CellIs(row, i, '[')
    ensures RowGps(row, y, x) == 0.0
  {
    if x > 0 {
      RowGpsNoBoxes(row, y, x - 1);
    }
  }

  class WideWarehouse {
    var rows: seq<string>
    var robotX: nat
    var robotY: nat
    const width: nat
    const height: nat

    ghost predicate Valid()
      reads this
    {
      height == |rows| && robotY < height
    }

    /** The constructor: the widened map, its first `@` and the size of its first row. */
    constructor (input: seq<string>)
      requires RobotFrom(Widened(input), 0).Some?
      ensures Valid()
      ensures rows == Widened(input) && Some(Pos(robotX, robotY)) == RobotFrom(Widened(input), 0)
      ensures width == |rows[0]| && height == |input|
    {
      var m := TransformMap(input);
      assert m == Widened(input);
      var r := FindRobot(m);
      rows := m;
      robotX := r.value.x;
      robotY := r.value.y;
      height := |m|;
      width := |m[0]|;
    }

    /** `move`: one step; the result says whether the move was valid. */
    method Move(direction: char) returns (moved: bool)
      requires Valid()
      modifies this
      ensures Valid()
      ensures Outcome(rows, Pos(robotX, robotY), moved) == Step(old(rows), Size(width, height), old(Pos(robotX, robotY)), direction)
    {
      var t := Target(robotX, robotY, direction);
      var v := ValidMove(rows, Size(width, height), t.x, t.y, direction);
      if v.Some? {
        rows := v.value;
        var row := rows[robotY];
        row := Put(Put(row, robotX, '.'), robotX + 1, '.');
        rows := rows[robotY := row];
        row := rows[t.y];
        row := Put(Put(row, t.x, '@'), t.x + 1, '.');
        rows := rows[t.y := row];
        robotX := t.x;
        robotY := t.y;
        return true;
      }
      return false;
    }

    /** `calculateGPS`: the nested loop over `height` × `width` cells. */
    method CalculateGps() returns (total: real)
      requires Valid()
      ensures total == GridGps(rows, width, height)
    {
      total := 0.0;
      var y := 0;
      while y < height
        invariant 0 <= y <= height && total == GridGps(rows, width, y)
      {
        var x := 0;
        var rowTotal := 0.0;
        while x < width
          invariant 0 <= x <= width && rowTotal == RowGps(rows[y], y, x)
        {
          if CellIs(rows[y], x, '[') {
            rowTotal := rowTotal + ((100 * y) as real + (x as real) / 2.0);
          }
          x := x + 1;
        }
        total := total + rowTotal;
        y := y + 1;
      }
    }
  }

  /** The widened map. */
  function Widened(input: seq<string>): (r: seq<string>)
    ensures |r| == |input| && forall y :: 0 <= y < |input| ==> r[y] == WidenLine(input[y])
  {
    seq(|input|, y requires 0 <= y < |input| => WidenLine(input[y]))
  }

  /** `findRobot`: the loop over the rows with `indexOf('@')`; no `@` throws. */
  method FindRobot(rows: seq<string>) returns (r: Result<Pos>)
    ensures r.Ok? <==> RobotFrom(rows, 0).Some?
    ensures r.Ok? ==> Some(r.value) == RobotFrom(rows, 0)
  {
    var y := 0;
    while y < |rows|
      invariant 0 <= y <= |rows| && RobotFrom(rows, 0) == RobotFrom(rows, y)
    {
      var x := IndexOf(rows[y], "@", 0);
      if x != -1 {
        return Ok(Pos(x, y));
      }
      y := y + 1;
    }
    return Err("Robot not found in map");
  }

  /** The value `solve_pt2` returns: -1 when the warehouse cannot be built (the error is
      caught), otherwise the GPS sum after the moves of the first line. */
  function Solve(lines: seq<string>): real
    requires |lines| >= 1
  {
    var input := lines[1..];
    var start := RobotFrom(Widened(input), 0);
    if start.None? then -1.0
    else
      var size := Size(|Widened(input)[0]|, |input|);
      var final := Play(Widened(input), size, start.value, lines[0]);
      GridGps(final.rows, size.width, size.height)
  }

  /** All moves of a move string, in order. */
  function Play(rows: seq<string>, size: Size, robot: Pos, moves: string): (r: Outcome)
    requires size.height == |rows| && 0 <= robot.y < |rows| && 0 <= robot.x
    ensures |r.rows| == |rows| && 0 <= r.robot.y < |rows| && 0 <= r.robot.x
    decreases |moves|
  {
    if moves == [] then Outcome(rows, robot, false)
    else
      var s := Step(rows, size, robot, moves[0]);
      Play(s.rows, size, s.robot, moves[1..])
  }

  /** `solve_pt2` on the lines of the input: the first line holds the moves, the rest is
      the map. */
  method SolvePart2(lines: seq<string>) returns (total: real)
    requires |lines| >= 1
    ensures total == Solve(lines)
  {
    var moves := lines[0];
    var input := lines[1..];
    if RobotFrom(Widened(input), 0).None? {
      return -1.0;
    }
    var w := new WideWarehouse(input);
    ghost var size := Size(w.width, w.height);
    var i := 0;
    while i < |moves|
      invariant 0 <= i <= |moves| && w.Valid() && Size(w.width, w.height) == size
      invariant Play(Widened(input), size, RobotFrom(Widened(input), 0).value, moves)
        == Play(w.rows, size, Pos(w.robotX, w.robotY), moves[i..])
      modifies w
    {
      var _ := w.Move(moves[i]);
      assert moves[i..][1..] == moves[i + 1..];
      i := i + 1;
    }
    total := w.CalculateGps();
  }
}
