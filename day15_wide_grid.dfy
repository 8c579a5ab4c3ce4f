/** Day 15, part 2 (solved_work_Day15/02_PUZZLE_SOLUTION/index.ts): the warehouse map is
    widened so that every box spans two cells `[` `]`; the robot pushes chains of boxes
    sideways and trees of boxes up or down. The grid (`string[][]`) is updated in place by
    `moveBox` and `moveRobot`; here it is the `rows` field of a `Grid` object. */
module Day15WideGrid {
  import opened Wrappers
  import opened JsText

  /** One cell of the widened grid. `Undefined` is the JavaScript `undefined` that the
      widening produces for an unrecognised character and that a read outside a row
      yields. */
  datatype Cell = Floor | Wall | BoxLeft | BoxRight | Robot | Undefined

  predicate IsBox(c: Cell) { c == BoxLeft || c == BoxRight }

  type Rows = seq<seq<Cell>>

  datatype Pos = Pos(x: int, y: int)

  /** `grid[0].length`, the width every bounds check uses. */
  function Width(rows: Rows): nat { if |rows| == 0 then 0 else |rows[0]| }

  predicate Rectangular(rows: Rows) {
    forall y :: 0 <= y < |rows| ==> |rows[y]| == Width(rows)
  }

  function RowAt(row: seq<Cell>, x: int): Cell {
    if 0 <= x < |row| then row[x] else Undefined
  }

  /** `grid[y][x]` for a row that exists. */
  function At(rows: Rows, x: int, y: int): Cell
    requires 0 <= y < |rows|
  {
    RowAt(rows[y], x)
  }

  predicate CellIs(rows: Rows, p: Pos, c: Cell) {
    0 <= p.y < |rows| && 0 <= p.x < |rows[p.y]| && rows[p.y][p.x] == c
  }

  /** `grid[y][x] = c`. */
  function WithCell(rows: Rows, x: int, y: int, c: Cell): (r: Rows)
    requires 0 <= y < |rows| && 0 <= x < |rows[y]|
    ensures |r| == |rows| && (forall i :: 0 <= i < |rows| ==> |r[i]| == |rows[i]|)
    ensures Rectangular(rows) ==> Rectangular(r) && Width(r) == Width(rows)
  {
    rows[y := rows[y][x := c]]
  }

  /** The pairing invariant at one cell: a `[` is immediately followed by a `]`, and a
      `]` is immediately preceded by a `[`. */
  predicate PairedAt(row: seq<Cell>, x: int)
    requires 0 <= x < |row|
  {
    (row[x] == BoxLeft <==> (x + 1 < |row| && row[x + 1] == BoxRight))
    && (row[x] == BoxRight <==> (0 < x && row[x - 1] == BoxLeft))
  }

  predicate PairedRow(row: seq<Cell>) {
    forall x :: 0 <= x < |row| ==> PairedAt(row, x)
  }

  predicate Paired(rows: Rows) {
    forall y :: 0 <= y < |rows| ==> PairedRow(rows[y])
  }

  /** Cell `x` holds one half of a whole box. */
  predicate WholeBoxAt(row: seq<Cell>, x: int) {
    0 <= x < |row|
    && ((row[x] == BoxLeft && x + 1 < |row| && row[x + 1] == BoxRight)
        || (row[x] == BoxRight && 0 < x && row[x - 1] == BoxLeft))
  }

  /** In a paired row every box half belongs to a whole box. */
  lemma PairedWholeBox(row: seq<Cell>, x: int)
    requires PairedRow(row) && 0 <= x < |row| && IsBox(row[x])
    ensures WholeBoxAt(row, x)
  {
    assert PairedAt(row, x);
  }

  /** Pairing at `x` only depends on the cells `x - 1`, `x` and `x + 1`. */
  lemma SameNeighbourhood(row: seq<Cell>, r: seq<Cell>, x: int)
    requires |r| == |row| && 0 <= x < |row| && PairedAt(row, x)
    requires forall j :: x - 1 <= j <= x + 1 && 0 <= j < |row| ==> r[j] == row[j]
    ensures PairedAt(r, x)
  {
  }

  // ---------------------------------------------------------------- parsing

  /** The `flatMap` callback of `parseInput`: the cells one map character widens into. */
  function WidenChar(c: char): seq<Cell> {
    match c
    case '@' => [Robot, Floor]
    case 'O' => [BoxLeft, BoxRight]
    case '#' => [Wall, Wall]
    case '.' => [Floor, Floor]
    case _ => [Undefined]
  }

  predicate Recognised(line: string) {
    forall i :: 0 <= i < |line| ==> line[i] in "@O#."
  }

  lemma PairedConcat(a: seq<Cell>, b: seq<Cell>)
    requires PairedRow(a) && PairedRow(b)
    requires a == [] || a[|a| - 1] != BoxLeft
    requires b == [] || b[0] != BoxRight
    ensures PairedRow(a + b)
  {
    var ab := a + b;
    forall x | 0 <= x < |ab| ensures PairedAt(ab, x) {
      if x < |a| {
        assert PairedAt(a, x);
        if x + 1 == |a| && b != [] { assert ab[x + 1] == b[0]; }
      } else {
        assert PairedAt(b, x - |a|);
        if x == |a| && a != [] { assert ab[x - 1] == a[|a| - 1]; }
      }
    }
  }

  /** One widened row: every character becomes the cells `WidenChar` gives it. */
  function WidenRow(line: string): (r: seq<Cell>)
    ensures Recognised(line) ==> |r| == 2 * |line|
    decreases |line|
  {
    if line == [] then []
    else
      assert Recognised(line) ==> Recognised(line[1..]) && line[0] in "@O#.";
      WidenChar(line[0]) + WidenRow(line[1..])
  }

  /** Every widened row already satisfies the pairing invariant, whatever the characters:
      `O` is the only character that produces a box half and it produces a whole box. */
  lemma {:induction false} WidenRowPaired(line: string)
    ensures PairedRow(WidenRow(line))
    ensures var r := WidenRow(line); r == [] || (r[0] != BoxRight && r[|r| - 1] != BoxLeft)
    decreases |line|
  {
    if line != [] {
      var head := WidenChar(line[0]);
      WidenRowPaired(line[1..]);
      WidenCharPaired(line[0]);
      PairedConcat(head, WidenRow(line[1..]));
      assert WidenRow(line) == head + WidenRow(line[1..]);
    }
  }

  /** The cells of one character are paired, start with no right half and end with no
      left half. */
  lemma WidenCharPaired(c: char)
    ensures var h := WidenChar(c); PairedRow(h) && h != [] && h[0] != BoxRight && h[|h| - 1] != BoxLeft
  {
    var h := WidenChar(c);
    forall x | 0 <= x < |h| ensures PairedAt(h, x) { }
  }

  lemma WidenRowCons(line: string)
    requires line != []
    ensures WidenRow(line) == WidenChar(line[0]) + WidenRow(line[1..])
  {
  }

  /** Cells `2i` and `2i+1` of a widened recognised row are the two cells of character
      `i`. */
  lemma {:induction false} WidenRowAt(line: string, i: nat)
    requires Recognised(line) && i < |line|
    ensures |WidenRow(line)| == 2 * |line|
    ensures WidenRow(line)[2 * i..2 * i + 2] == WidenChar(line[i])
    decreases |line|
  {
    var tail := line[1..];
    assert Recognised(tail);
    var head := WidenChar(line[0]);
    assert |head| == 2 by { assert line[0] in "@O#."; }
    WidenRowCons(line);
    if i > 0 {
      WidenRowAt(tail, i - 1);
      assert tail[i - 1] == line[i];
      PairAfterHead(head, WidenRow(tail), 2 * i);
    } else {
      PairAtHead(head, WidenRow(tail));
    }
  }

  /** Two cells taken past a prefix are the cells at the shifted place of the rest. */
  lemma PairAfterHead(a: seq<Cell>, b: seq<Cell>, k: nat)
    requires |a| <= k && k + 2 <= |a| + |b|
    ensures (a + b)[k..k + 2] == b[k - |a|..k - |a| + 2]
  {
    assert (a + b)[k] == b[k - |a|] && (a + b)[k + 1] == b[k - |a| + 1];
  }

  /** The first two cells of a two-cell prefix followed by more cells are the prefix. */
  lemma PairAtHead(a: seq<Cell>, b: seq<Cell>)
    requires |a| == 2
    ensures (a + b)[0..2] == a
  {
    assert (a + b)[0] == a[0] && (a + b)[1] == a[1];
  }

  datatype Parsed = Parsed(movements: string, grid: Rows)

  function WidenAll(lines: seq<string>): (rows: Rows)
    ensures |rows| == |lines|
    ensures forall y :: 0 <= y < |rows| ==> rows[y] == WidenRow(lines[y])
    ensures Paired(rows)
  {
    var rows := seq(|lines|, y requires 0 <= y < |lines| => WidenRow(lines[y]));
    assert Paired(rows) by {
      forall y | 0 <= y < |rows| ensures PairedRow(rows[y]) { WidenRowPaired(lines[y]); }
    }
    rows
  }

  /** `parseInput`: the input must split on "\n\n" into exactly a map and a list of
      movements; the map lines are widened and the movement lines are joined and
      trimmed. */
  function ParseInput(input: string): (r: Result<Parsed>)
    ensures r.Err? <==> |Split(input, "\n\n")| != 2
    ensures r.Ok? ==> r.value.grid == WidenAll(Split(Split(input, "\n\n")[0], "\n"))
    ensures r.Ok? ==> Paired(r.value.grid)
    ensures r.Ok? ==> r.value.movements == Trim(Without(Split(input, "\n\n")[1], '\n'))
  {
    var parts := Split(input, "\n\n");
    if |parts| != 2 then
      Err("Invalid input format: expected grid and movements separated by blank line")
    else
      var lines := Split(parts[0], "\n");
      JoinSplitOnChar(parts[1], '\n');
      Ok(Parsed(Trim(Join(Split(parts[1], "\n"), "")), WidenAll(lines)))
  }

  // ---------------------------------------------------------------- robot and moves

  function FirstInRow(row: seq<Cell>, c: Cell, from: nat): (r: int)
    ensures r == -1 || (from <= r < |row| && row[r] == c)
    ensures forall i :: from <= i < |row| && (r == -1 || i < r) ==> row[i] != c
    decreases |row| - from
  {
    if from >= |row| then -1 else if row[from] == c then from else FirstInRow(row, c, from + 1)
  }

  /** Row-major order on positions. */
  predicate Before(y: int, x: int, p: Pos) { y < p.y || (y == p.y && x < p.x) }

  /** The first `@` at or below row `y` in row-major order. */
  function FirstRobotFrom(rows: Rows, y: nat): (r: Option<Pos>)
    ensures r.Some? ==> CellIs(rows, r.value, Robot) && y <= r.value.y
    ensures forall y', x :: (y <= y' < |rows| && 0 <= x < |rows[y']|
      && (r.None? || Before(y', x, r.value))) ==> rows[y'][x] != Robot
    decreases |rows| - y
  {
    if y >= |rows| then None
    else
      var i := FirstInRow(rows[y], Robot, 0);
      if i >= 0 then Some(Pos(i, y)) else FirstRobotFrom(rows, y + 1)
  }

  /** The first `@` in row-major order, if any. */
  function FirstRobot(rows: Rows): (r: Option<Pos>)
    ensures r.Some? ==> CellIs(rows, r.value, Robot)
    ensures forall y, x :: (0 <= y < |rows| && 0 <= x < |rows[y]|
      && (r.None? || Before(y, x, r.value))) ==> rows[y][x] != Robot
  {
    FirstRobotFrom(rows, 0)
  }

  /** `findRobot`: the first `@` in row-major order; it throws when there is none. */
  method FindRobot(rows: Rows) returns (r: Result<Pos>)
    ensures FirstRobot(rows).Some? ==> r == Ok(FirstRobot(rows).value)
    ensures FirstRobot(rows).None? ==> r.Err?
  {
    var y := 0;
    while y < |rows|
      invariant 0 <= y <= |rows|
      invariant FirstRobot(rows) == FirstRobotFrom(rows, y)
    {
      var x := 0;
      while x < |rows[y]|
        invariant 0 <= x <= |rows[y]|
        invariant FirstInRow(rows[y], Robot, 0) == FirstInRow(rows[y], Robot, x)
      {
        if rows[y][x] == Robot {
          return Ok(Pos(x, y));
        }
        x := x + 1;
      }
      y := y + 1;
    }
    return Err("Robot not found in grid");
  }

  /** The outcome of `isValidMove`: 'valid', 'wall' or 'box'. */
  datatype MoveKind = Open | Blocked | BoxAhead

  predicate InGrid(rows: Rows, p: Pos) {
    0 <= p.y < |rows| && 0 <= p.x < Width(rows)
  }

  /** `isValidMove`: outside the grid counts as a wall, `.` is open, either box half is a
      box, and every other cell (a wall, a robot, `undefined`) blocks. */
  function IsValidMove(rows: Rows, p: Pos): (k: MoveKind)
    ensures k == Open <==> InGrid(rows, p) && At(rows, p.x, p.y) == Floor
    ensures k == BoxAhead <==> InGrid(rows, p) && IsBox(At(rows, p.x, p.y))
    ensures !InGrid(rows, p) ==> k == Blocked
  {
    if !InGrid(rows, p) then Blocked
    else
      var cell := At(rows, p.x, p.y);
      if cell == Floor then Open else if IsBox(cell) then BoxAhead else Blocked
  }

  predicate IsDirection(d: char) { d == '<' || d == '>' || d == '^' || d == 'v' }

  /** The robot's target for one movement character. */
  function Step(p: Pos, d: char): (q: Pos)
    requires IsDirection(d)
    ensures (q.x == p.x && (q.y == p.y - 1 || q.y == p.y + 1))
      || (q.y == p.y && (q.x == p.x - 1 || q.x == p.x + 1))
  {
    match d
    case '<' => Pos(p.x - 1, p.y)
    case '>' => Pos(p.x + 1, p.y)
    case '^' => Pos(p.x, p.y - 1)
    case 'v' => Pos(p.x, p.y + 1)
  }

  // ---------------------------------------------------------------- the push check

  /** `canPushBox`: whether the box touched at `(boxX, boxY)` can be pushed one cell in
      direction `d`, looking at most 20 levels deep. It only reads the grid. */
  function CanPushBox(rows: Rows, boxX: int, boxY: int, d: char, depth: nat): (ok: bool)
    requires 0 <= boxY < |rows|
    ensures depth > 20 ==> !ok
    ensures !IsDirection(d) ==> !ok
    decreases 21 - depth
  {
    if depth > 20 then false
    else if d == '<' then
      var tx := boxX - 2;
      if tx < 0 then false
      else if At(rows, tx, boxY) == Floor then true
      else if IsBox(At(rows, tx, boxY)) then CanPushBox(rows, tx, boxY, d, depth + 1)
      else false
    else if d == '>' then
      var tx := boxX + 2;
      if tx + 1 >= Width(rows) then false
      else if At(rows, tx, boxY) == Floor then true
      else if IsBox(At(rows, tx, boxY)) then CanPushBox(rows, tx, boxY, d, depth + 1)
      else false
    else if d == '^' || d == 'v' then
      var ty := if d == '^' then boxY - 1 else boxY + 1;
      if ty < 0 || ty >= |rows| then false
      else
        var leftX := if At(rows, boxX, boxY) == BoxLeft then boxX else boxX - 1;
        var rightX := leftX + 1;
        var l, r := At(rows, leftX, ty), At(rows, rightX, ty);
        if l == Wall || r == Wall then false
        else if l == BoxRight && r == BoxLeft then
          if At(rows, leftX - 1, ty) == Wall || At(rows, rightX + 1, ty) == Wall then false
          else CanPushBox(rows, leftX, ty, d, depth + 1) && CanPushBox(rows, rightX, ty, d, depth + 1)
        else if l == Floor && r == Floor then true
        else if IsBox(l) || IsBox(r) then
          var boxLeftX := if r == BoxLeft then rightX else if l == BoxRight then leftX - 1 else leftX;
          if At(rows, boxLeftX, ty) == Wall || At(rows, boxLeftX + 1, ty) == Wall then false
          else CanPushBox(rows, boxLeftX, ty, d, depth + 1)
        else false
    else false
  }

  /** The left column of the box a vertical push at `(boxX, boxY)` moves. */
  function FootLeft(rows: Rows, boxX: int, boxY: int): int
    requires 0 <= boxY < |rows|
  {
    if At(rows, boxX, boxY) == BoxLeft then boxX else boxX - 1
  }

  function TargetRow(boxY: int, d: char): int {
    if d == '^' then boxY - 1 else boxY + 1
  }

  /** A vertical push is refused outside the grid and when a wall stands above (or below)
      either cell of the box's footprint; it succeeds at once onto two free cells; a
      straddled pair of boxes with no wall beside it is pushed exactly when both of them
      can be. */
  lemma VerticalPushRules(rows: Rows, boxX: int, boxY: int, d: char, depth: nat)
    requires 0 <= boxY < |rows| && (d == '^' || d == 'v') && depth <= 20
    ensures var ty := TargetRow(boxY, d);
      !(0 <= ty < |rows|) ==> !CanPushBox(rows, boxX, boxY, d, depth)
    ensures var ty, l := TargetRow(boxY, d), FootLeft(rows, boxX, boxY);
      0 <= ty < |rows| && (At(rows, l, ty) == Wall || At(rows, l + 1, ty) == Wall) ==>
        !CanPushBox(rows, boxX, boxY, d, depth)
    ensures var ty, l := TargetRow(boxY, d), FootLeft(rows, boxX, boxY);
      0 <= ty < |rows| && At(rows, l, ty) == Floor && At(rows, l + 1, ty) == Floor ==>
        CanPushBox(rows, boxX, boxY, d, depth)
    ensures var ty, l := TargetRow(boxY, d), FootLeft(rows, boxX, boxY);
      (0 <= ty < |rows| && At(rows, l, ty) == BoxRight && At(rows, l + 1, ty) == BoxLeft
       && At(rows, l - 1, ty) != Wall && At(rows, l + 2, ty) != Wall) ==>
        (CanPushBox(rows, boxX, boxY, d, depth) <==>
          CanPushBox(rows, l, ty, d, depth + 1) && CanPushBox(rows, l + 1, ty, d, depth + 1))
  {
    var ty, l := TargetRow(boxY, d), FootLeft(rows, boxX, boxY);
    if 0 <= ty < |rows| {
      VerticalPushUnfold(rows, boxX, boxY, d, depth);
    }
  }

  /** One unfolding of `canPushBox` for a vertical push whose target row exists. */
  lemma VerticalPushUnfold(rows: Rows, boxX: int, boxY: int, d: char, depth: nat)
    requires 0 <= boxY < |rows| && (d == '^' || d == 'v') && depth <= 20
    requires 0 <= TargetRow(boxY, d) < |rows|
    ensures var ty, leftX := TargetRow(boxY, d), FootLeft(rows, boxX, boxY);
      var l, r := At(rows, leftX, ty), At(rows, leftX + 1, ty);
      CanPushBox(rows, boxX, boxY, d, depth) ==
        if l == Wall || r == Wall then false
        else if l == BoxRight && r == BoxLeft then
          if At(rows, leftX - 1, ty) == Wall || At(rows, leftX + 2, ty) == Wall then false
          else CanPushBox(rows, leftX, ty, d, depth + 1) && CanPushBox(rows, leftX + 1, ty, d, depth + 1)
        else if l == Floor && r == Floor then true
        else if IsBox(l) || IsBox(r) then
          var boxLeftX := if r == BoxLeft then leftX + 1 else if l == BoxRight then leftX - 1 else leftX;
          if At(rows, boxLeftX, ty) == Wall || At(rows, boxLeftX + 1, ty) == Wall then false
          else CanPushBox(rows, boxLeftX, ty, d, depth + 1)
        else false
  {
  }

  /** A smaller depth already used never makes a push fail that a larger one allows. */
  lemma {:induction false} CanPushMonotone(rows: Rows, boxX: int, boxY: int, d: char, depth: nat)
    requires 0 <= boxY < |rows|
    requires CanPushBox(rows, boxX, boxY, d, depth + 1)
    ensures CanPushBox(rows, boxX, boxY, d, depth)
    decreases 21 - depth
  {
    if d == '<' {
      var tx := boxX - 2;
      if IsBox(At(rows, tx, boxY)) { CanPushMonotone(rows, tx, boxY, d, depth + 1); }
    } else if d == '>' {
      var tx := boxX + 2;
      if IsBox(At(rows, tx, boxY)) { CanPushMonotone(rows, tx, boxY, d, depth + 1); }
    } else {
      var ty := if d == '^' then boxY - 1 else boxY + 1;
      var leftX := if At(rows, boxX, boxY) == BoxLeft then boxX else boxX - 1;
      var rightX := leftX + 1;
      var l, r := At(rows, leftX, ty), At(rows, rightX, ty);
      if l == BoxRight && r == BoxLeft {
        CanPushMonotone(rows, leftX, ty, d, depth + 1);
        CanPushMonotone(rows, rightX, ty, d, depth + 1);
      } else if !(l == Floor && r == Floor) && (IsBox(l) || IsBox(r)) {
        var boxLeftX := if r == BoxLeft then rightX else if l == BoxRight then leftX - 1 else leftX;
        CanPushMonotone(rows, boxLeftX, ty, d, depth + 1);
      }
    }
  }

  // ---------------------------------------------------------------- sideways chains

  /** A leftward chain of `k` box cells at even distances from `boxX` ends in a free cell,
      the one `k` steps of two to the left. */
  predicate LeftChain(row: seq<Cell>, boxX: int, k: nat) {
    1 <= k && 0 <= boxX - 2 * k && RowAt(row, boxX - 2 * k) == Floor
    && forall j :: boxX - 2 * k < j < boxX && (boxX - j) % 2 == 0 ==> IsBox(RowAt(row, j))
  }

  /** A rightward chain, which also needs one more column after its free cell inside the
      width `w`. */
  predicate RightChain(row: seq<Cell>, boxX: int, k: nat, w: int) {
    1 <= k && boxX + 2 * k + 1 < w && RowAt(row, boxX + 2 * k) == Floor
    && forall j :: boxX < j < boxX + 2 * k && (j - boxX) % 2 == 0 ==> IsBox(RowAt(row, j))
  }

  /** Behind a leftward chain's first box lies the rest of the chain. */
  lemma LeftChainTail(row: seq<Cell>, boxX: int, k: nat)
    requires LeftChain(row, boxX, k) && IsBox(RowAt(row, boxX - 2))
    ensures k > 1 && LeftChain(row, boxX - 2, k - 1)
  {
    assert k != 1;
    assert LeftChain(row, boxX - 2, k - 1);
  }

  lemma RightChainTail(row: seq<Cell>, boxX: int, k: nat, w: int)
    requires RightChain(row, boxX, k, w) && IsBox(RowAt(row, boxX + 2))
    ensures k > 1 && RightChain(row, boxX + 2, k - 1, w)
  {
    assert k != 1;
    assert RightChain(row, boxX + 2, k - 1, w);
  }

  lemma {:induction false} LeftChainSound(rows: Rows, boxX: int, boxY: int, k: nat, depth: nat)
    requires 0 <= boxY < |rows| && LeftChain(rows[boxY], boxX, k) && k <= 21 - depth
    ensures CanPushBox(rows, boxX, boxY, '<', depth)
    decreases k
  {
    var row, tx := rows[boxY], boxX - 2;
    if k > 1 {
      assert IsBox(RowAt(row, tx));
      assert LeftChain(row, tx, k - 1);
      LeftChainSound(rows, tx, boxY, k - 1, depth + 1);
    }
  }

  lemma {:induction false} LeftChainComplete(rows: Rows, boxX: int, boxY: int, depth: nat) returns (k: nat)
    requires 0 <= boxY < |rows| && CanPushBox(rows, boxX, boxY, '<', depth)
    ensures k <= 21 - depth && LeftChain(rows[boxY], boxX, k)
    decreases 21 - depth
  {
    var row, tx := rows[boxY], boxX - 2;
    if At(rows, tx, boxY) == Floor {
      k := 1;
    } else {
      var k' := LeftChainComplete(rows, tx, boxY, depth + 1);
      k := k' + 1;
    }
  }

  lemma {:induction false} RightChainSound(rows: Rows, boxX: int, boxY: int, k: nat, depth: nat)
    requires 0 <= boxY < |rows| && RightChain(rows[boxY], boxX, k, Width(rows)) && k <= 21 - depth
    ensures CanPushBox(rows, boxX, boxY, '>', depth)
    decreases k
  {
    var row, tx := rows[boxY], boxX + 2;
    if k > 1 {
      assert IsBox(RowAt(row, tx));
      assert RightChain(row, tx, k - 1, Width(rows));
      RightChainSound(rows, tx, boxY, k - 1, depth + 1);
    }
  }

  lemma {:induction false} RightChainComplete(rows: Rows, boxX: int, boxY: int, depth: nat) returns (k: nat)
    requires 0 <= boxY < |rows| && CanPushBox(rows, boxX, boxY, '>', depth)
    ensures k <= 21 - depth && RightChain(rows[boxY], boxX, k, Width(rows))
    decreases 21 - depth
  {
    var row, tx := rows[boxY], boxX + 2;
    if At(rows, tx, boxY) == Floor {
      k := 1;
    } else {
      var k' := RightChainComplete(rows, tx, boxY, depth + 1);
      k := k' + 1;
    }
  }

  /** A leftward push succeeds exactly when a chain of at most `21 - depth` boxes ends in
      a free cell: the depth cut-off limits a sideways push to 21 boxes in a row. */
  lemma CanPushLeftIff(rows: Rows, boxX: int, boxY: int, depth: nat)
    requires 0 <= boxY < |rows|
    ensures CanPushBox(rows, boxX, boxY, '<', depth) <==>
      exists k: nat :: k <= 21 - depth && LeftChain(rows[boxY], boxX, k)
  {
    if CanPushBox(rows, boxX, boxY, '<', depth) {
      var k := LeftChainComplete(rows, boxX, boxY, depth);
    }
    forall k: nat | k <= 21 - depth && LeftChain(rows[boxY], boxX, k)
      ensures CanPushBox(rows, boxX, boxY, '<', depth)
    {
      LeftChainSound(rows, boxX, boxY, k, depth);
    }
  }

  /** The rightward counterpart of `CanPushLeftIff`. */
  lemma CanPushRightIff(rows: Rows, boxX: int, boxY: int, depth: nat)
    requires 0 <= boxY < |rows|
    ensures CanPushBox(rows, boxX, boxY, '>', depth) <==>
      exists k: nat :: k <= 21 - depth && RightChain(rows[boxY], boxX, k, Width(rows))
  {
    if CanPushBox(rows, boxX, boxY, '>', depth) {
      var k := RightChainComplete(rows, boxX, boxY, depth);
    }
    forall k: nat | k <= 21 - depth && RightChain(rows[boxY], boxX, k, Width(rows))
      ensures CanPushBox(rows, boxX, boxY, '>', depth)
    {
      RightChainSound(rows, boxX, boxY, k, depth);
    }
  }

  /** The free cell that ends a rightward chain may not be the last column: a box can
      never be pushed against the right edge of the grid. */
  lemma RightPushNeedsSpareColumn()
    ensures !CanPushBox([[Robot, BoxLeft, BoxRight, Floor]], 1, 0, '>', 0)
    ensures CanPushBox([[Robot, BoxLeft, BoxRight, Floor, Floor]], 1, 0, '>', 0)
  {
  }

  /** The row after a leftward chain of `k` boxes slid one cell: the stretch from the free
      cell up to `boxX` holds `k` whole boxes and the two cells at `boxX` are left free. */
  function SlideLeft(row: seq<Cell>, boxX: int, k: nat): (r: seq<Cell>)
    requires 0 <= boxX - 2 * k && boxX + 1 < |row|
    ensures |r| == |row|
  {
    seq(|row|, x requires 0 <= x < |row| =>
      if boxX - 2 * k <= x < boxX then (if (x - (boxX - 2 * k)) % 2 == 0 then BoxLeft else BoxRight)
      else if x == boxX || x == boxX + 1 then Floor
      else row[x])
  }

  /** The row after a rightward chain of `k` boxes slid one cell: `boxX` is left free and
      the `2k` cells after it hold `k` whole boxes. */
  function SlideRight(row: seq<Cell>, boxX: int, k: nat): (r: seq<Cell>)
    requires 0 <= boxX && boxX + 2 * k < |row|
    ensures |r| == |row|
  {
    seq(|row|, x requires 0 <= x < |row| =>
      if x == boxX then Floor
      else if boxX < x <= boxX + 2 * k then (if (x - boxX) % 2 == 1 then BoxLeft else BoxRight)
      else row[x])
  }

  /** `after` is `before` with the leftward chain at `(boxX, boxY)` slid one cell. */
  ghost predicate SlidLeft(before: Rows, after: Rows, boxX: int, boxY: int)
    requires 0 <= boxY < |before|
  {
    boxX + 1 < |before[boxY]|
    && exists k: nat ::
         LeftChain(before[boxY], boxX, k) && after == before[boxY := SlideLeft(before[boxY], boxX, k)]
  }

  /** `after` is `before` with the rightward chain at `(boxX, boxY)` slid one cell. */
  ghost predicate SlidRight(before: Rows, after: Rows, boxX: int, boxY: int)
    requires 0 <= boxY < |before|
  {
    0 <= boxX
    && exists k: nat ::
         RightChain(before[boxY], boxX, k, |before[boxY]|) && after == before[boxY := SlideRight(before[boxY], boxX, k)]
  }

  /** A leftward slide keeps a row paired when the cell behind the pushed box (where the
      robot stands) holds no box half. */
  lemma SlideLeftPaired(row: seq<Cell>, boxX: int, k: nat)
    requires PairedRow(row) && LeftChain(row, boxX, k) && boxX + 1 < |row|
    requires !IsBox(row[boxX + 1])
    ensures PairedRow(SlideLeft(row, boxX, k))
  {
    forall x | 0 <= x < |row| ensures PairedAt(SlideLeft(row, boxX, k), x) {
      var e := boxX - 2 * k;
      if e <= x <= boxX {
        SlideLeftPairedInside(row, boxX, k, x);
      } else {
        SlideLeftPairedOutside(row, boxX, k, x);
      }
    }
  }

  lemma SlideLeftPairedInside(row: seq<Cell>, boxX: int, k: nat, x: int)
    requires PairedRow(row) && LeftChain(row, boxX, k) && boxX + 1 < |row|
    requires boxX - 2 * k <= x <= boxX
    ensures PairedAt(SlideLeft(row, boxX, k), x)
  {
    var r := SlideLeft(row, boxX, k);
    var e := boxX - 2 * k;
    assert row[e] == Floor;
    if x == boxX {
      assert (x - 1 - e) % 2 == 1;
      assert r[x - 1] == BoxRight;
    } else {
      if x + 1 < boxX {
        assert r[x + 1] == (if (x + 1 - e) % 2 == 0 then BoxLeft else BoxRight);
      } else {
        assert (x - e) % 2 == 1;
      }
      if x > e {
        assert r[x - 1] == (if (x - 1 - e) % 2 == 0 then BoxLeft else BoxRight);
      } else if 0 < e {
        assert PairedAt(row, e - 1);
      }
    }
  }

  lemma SlideLeftPairedOutside(row: seq<Cell>, boxX: int, k: nat, x: int)
    requires PairedRow(row) && LeftChain(row, boxX, k) && boxX + 1 < |row|
    requires !IsBox(row[boxX + 1])
    requires 0 <= x < |row| && !(boxX - 2 * k <= x <= boxX)
    ensures PairedAt(SlideLeft(row, boxX, k), x)
  {
    var r := SlideLeft(row, boxX, k);
    var e := boxX - 2 * k;
    assert row[e] == Floor;
    if x < e - 1 || x > boxX + 2 {
      SameNeighbourhood(row, r, x);
    } else if x == e - 1 {
      assert PairedAt(row, x);
    } else if x == boxX + 2 {
      assert PairedAt(row, x);
      assert PairedAt(row, boxX + 1);
    } else if x + 1 < |row| {
      assert PairedAt(row, x + 1);
    }
  }

  /** A rightward slide keeps a row paired when the cell behind the pushed box holds no
      box half. */
  lemma SlideRightPaired(row: seq<Cell>, boxX: int, k: nat)
    requires PairedRow(row) && RightChain(row, boxX, k, |row|) && 0 <= boxX
    requires boxX == 0 || !IsBox(row[boxX - 1])
    ensures PairedRow(SlideRight(row, boxX, k))
  {
    var r := SlideRight(row, boxX, k);
    var e := boxX + 2 * k;
    assert row[e] == Floor;
    forall x | 0 <= x < |r| ensures PairedAt(r, x) {
      if x < boxX - 1 || x > e + 1 {
        SameNeighbourhood(row, r, x);
      } else if x == boxX - 1 {
        assert PairedAt(row, x);
        if 0 < x { assert PairedAt(row, x - 1); }
      } else if x == e + 1 {
        assert PairedAt(row, x);
      } else if boxX < x <= e {
        if x - 1 > boxX {
          assert r[x - 1] == (if (x - 1 - boxX) % 2 == 1 then BoxLeft else BoxRight);
        }
        if x < e {
          assert r[x + 1] == (if (x + 1 - boxX) % 2 == 1 then BoxLeft else BoxRight);
        } else {
          assert (x - boxX) % 2 == 0;
          assert PairedAt(row, e + 1);
        }
      } else if x == boxX {
        assert r[x + 1] == BoxLeft;
      }
    }
  }

  /** Clearing both cells of a whole box keeps a row paired. */
  lemma EraseBoxPaired(row: seq<Cell>, l: int)
    requires PairedRow(row) && 0 <= l && l + 1 < |row| && row[l] == BoxLeft
    ensures PairedRow(row[l := Floor][l + 1 := Floor])
  {
    var r := row[l := Floor][l + 1 := Floor];
    assert PairedAt(row, l) && PairedAt(row, l + 1);
    forall x | 0 <= x < |r| ensures PairedAt(r, x) {
      if x < l - 1 || x > l + 2 {
        SameNeighbourhood(row, r, x);
      } else if x == l - 1 || x == l + 2 {
        assert PairedAt(row, x);
      }
    }
  }

  /** Putting a whole box on two adjacent cells that hold no box half keeps a row
      paired. */
  lemma PlaceBoxPaired(row: seq<Cell>, l: int)
    requires PairedRow(row) && 0 <= l && l + 1 < |row| && !IsBox(row[l]) && !IsBox(row[l + 1])
    ensures PairedRow(row[l := BoxLeft][l + 1 := BoxRight])
  {
    var r := row[l := BoxLeft][l + 1 := BoxRight];
    assert PairedAt(row, l) && PairedAt(row, l + 1);
    forall x | 0 <= x < |r| ensures PairedAt(r, x) {
      if x < l - 1 || x > l + 2 {
        SameNeighbourhood(row, r, x);
      } else if x == l - 1 || x == l + 2 {
        assert PairedAt(row, x);
      }
    }
  }

  /** Replacing a cell that holds no box half by another such cell keeps a row paired. */
  lemma ReplaceNonBoxPaired(row: seq<Cell>, x0: int, c: Cell)
    requires PairedRow(row) && 0 <= x0 < |row| && !IsBox(row[x0]) && !IsBox(c)
    ensures PairedRow(row[x0 := c])
  {
    var r := row[x0 := c];
    assert PairedAt(row, x0);
    forall x | 0 <= x < |r| ensures PairedAt(r, x) {
      if x < x0 - 1 || x > x0 + 1 {
        SameNeighbourhood(row, r, x);
      } else if x != x0 {
        assert PairedAt(row, x);
      }
    }
  }

  /** The row a vertical push leaves behind: both cells of the pushed box are free. */
  function Cleared(row: seq<Cell>, boxX: int): (r: seq<Cell>)
    requires WholeBoxAt(row, boxX)
    ensures |r| == |row|
  {
    var l := if row[boxX] == BoxLeft then boxX else boxX - 1;
    row[l := Floor][l + 1 := Floor]
  }

  // ---------------------------------------------------------------- moving boxes

  /** The `string[][]` grid, shared by reference and updated in place. */
  class Grid {
    var rows: Rows

    constructor (rows: Rows)
      ensures this.rows == rows
    {
      this.rows := rows;
    }
  }

  /** The four writes of a leftward commit, once the rest of the chain has slid, give the
      slide of the whole chain. */
  lemma LeftCommitRow(row: seq<Cell>, boxX: int, k: nat)
    requires LeftChain(row, boxX - 2, k) && boxX + 1 < |row| && IsBox(RowAt(row, boxX - 2))
    ensures LeftChain(row, boxX, k + 1)
    ensures SlideLeft(row, boxX - 2, k)[boxX := Floor][boxX + 1 := Floor][boxX - 2 := BoxLeft][boxX - 1 := BoxRight]
      == SlideLeft(row, boxX, k + 1)
  {
    forall j | boxX - 2 * (k + 1) < j < boxX && (boxX - j) % 2 == 0 ensures IsBox(RowAt(row, j)) {
      if j != boxX - 2 { assert (boxX - 2 - j) % 2 == 0; }
    }
  }

  lemma LeftCommitFloor(row: seq<Cell>, boxX: int)
    requires 0 <= boxX - 2 && boxX + 1 < |row| && row[boxX - 2] == Floor
    ensures LeftChain(row, boxX, 1)
    ensures row[boxX := Floor][boxX + 1 := Floor][boxX - 2 := BoxLeft][boxX - 1 := BoxRight]
      == SlideLeft(row, boxX, 1)
  {
  }

  lemma RightCommitRow(row: seq<Cell>, boxX: int, k: nat)
    requires RightChain(row, boxX + 2, k, |row|) && 0 <= boxX && IsBox(RowAt(row, boxX + 2))
    ensures RightChain(row, boxX, k + 1, |row|)
    ensures SlideRight(row, boxX + 2, k)[boxX := Floor][boxX + 1 := Floor][boxX + 1 := BoxLeft][boxX + 2 := BoxRight]
      == SlideRight(row, boxX, k + 1)
  {
    forall j | boxX < j < boxX + 2 * (k + 1) && (j - boxX) % 2 == 0 ensures IsBox(RowAt(row, j)) {
      if j != boxX + 2 { assert (j - boxX - 2) % 2 == 0; }
    }
  }

  lemma RightCommitFloor(row: seq<Cell>, boxX: int)
    requires 0 <= boxX && boxX + 3 < |row| && row[boxX + 2] == Floor
    ensures RightChain(row, boxX, 1, |row|)
    ensures row[boxX := Floor][boxX + 1 := Floor][boxX + 1 := BoxLeft][boxX + 2 := BoxRight]
      == SlideRight(row, boxX, 1)
  {
  }

  /** The `'<'` case of `moveBox`: it succeeds exactly when `canPushBox` allows it, and
      then slides the whole chain one cell left. */
  method PushLeft(g: Grid, boxX: int, boxY: int) returns (ok: bool)
    requires Rectangular(g.rows) && 0 <= boxY < |g.rows| && 0 <= boxX && boxX + 1 < Width(g.rows)
    modifies g
    ensures Rectangular(g.rows) && |g.rows| == old(|g.rows|) && Width(g.rows) == old(Width(g.rows))
    ensures ok == old(CanPushBox(g.rows, boxX, boxY, '<', 0))
    ensures ok ==> SlidLeft(old(g.rows), g.rows, boxX, boxY)
    ensures !ok ==> g.rows == old(g.rows)
    decreases boxX
  {
    if !CanPushBox(g.rows, boxX, boxY, '<', 0) {
      return false;
    }
    ghost var rows0 := g.rows;
    ghost var row := rows0[boxY];
    var tx := boxX - 2;
    ghost var k := LeftChainComplete(g.rows, boxX, boxY, 0);
    if IsBox(At(g.rows, tx, boxY)) {
      LeftChainTail(row, boxX, k);
      LeftChainSound(g.rows, tx, boxY, k - 1, 0);
      ok := PushLeft(g, tx, boxY);
      if !ok { return false; }
    }
    FinishLeft(g, boxX, boxY, rows0, k);
    ok := true;
  }

  /** The writes of the `'<'` case once the boxes behind have moved: the box at `boxX`
      steps two cells left, completing the slide of the whole chain. */
  method FinishLeft(g: Grid, boxX: int, boxY: int, ghost rows0: Rows, ghost k: nat)
    requires 0 <= boxY < |rows0| && boxX + 1 < Width(rows0) && LeftChain(rows0[boxY], boxX, k)
    requires Rectangular(g.rows) && |g.rows| == |rows0| && Width(g.rows) == Width(rows0) && |rows0[boxY]| == Width(rows0)
    requires IsBox(At(rows0, boxX - 2, boxY)) ==> SlidLeft(rows0, g.rows, boxX - 2, boxY)
    requires !IsBox(At(rows0, boxX - 2, boxY)) ==> g.rows == rows0
    modifies g
    ensures Rectangular(g.rows) && |g.rows| == |rows0| && Width(g.rows) == Width(rows0)
    ensures SlidLeft(rows0, g.rows, boxX, boxY)
  {
    ghost var row := rows0[boxY];
    var tx := boxX - 2;
    ghost var rows1 := g.rows;
    ghost var r1 := rows1[boxY];
    assert rows1 == rows0[boxY := r1];
    CommitHorizontal(g, boxX, tx, boxY);
    ghost var r2 := r1[boxX := Floor][boxX + 1 := Floor][tx := BoxLeft][tx + 1 := BoxRight];
    assert g.rows == rows0[boxY := r2];
    if IsBox(At(rows0, tx, boxY)) {
      var k': nat :| LeftChain(row, tx, k') && rows1 == rows0[boxY := SlideLeft(row, tx, k')];
      assert r1 == SlideLeft(row, tx, k');
      LeftCommitRow(row, boxX, k');
      SlidLeftBy(rows0, boxX, boxY, k' + 1, r2);
    } else {
      assert r1 == row;
      LeftCommitFloor(row, boxX);
      SlidLeftBy(rows0, boxX, boxY, 1, r2);
    }
  }

  /** The `'>'` case of `moveBox`. */
  method PushRight(g: Grid, boxX: int, boxY: int) returns (ok: bool)
    requires Rectangular(g.rows) && 0 <= boxY < |g.rows| && 0 <= boxX
    modifies g
    ensures Rectangular(g.rows) && |g.rows| == old(|g.rows|) && Width(g.rows) == old(Width(g.rows))
    ensures ok == old(CanPushBox(g.rows, boxX, boxY, '>', 0))
    ensures ok ==> SlidRight(old(g.rows), g.rows, boxX, boxY)
    ensures !ok ==> g.rows == old(g.rows)
    decreases Width(g.rows) - boxX
  {
    if !CanPushBox(g.rows, boxX, boxY, '>', 0) {
      return false;
    }
    ghost var rows0 := g.rows;
    ghost var row := rows0[boxY];
    var tx := boxX + 1;
    ghost var k := RightChainComplete(g.rows, boxX, boxY, 0);
    if IsBox(At(g.rows, tx + 1, boxY)) {
      RightChainTail(row, boxX, k, Width(rows0));
      RightChainSound(g.rows, tx + 1, boxY, k - 1, 0);
      ok := PushRight(g, tx + 1, boxY);
      if !ok { return false; }
    }
    FinishRight(g, boxX, boxY, rows0, k);
    ok := true;
  }

  /** The writes of the `'>'` case once the boxes ahead have moved: the box at `boxX`
      steps one cell right, completing the slide of the whole chain. */
  method FinishRight(g: Grid, boxX: int, boxY: int, ghost rows0: Rows, ghost k: nat)
    requires 0 <= boxY < |rows0| && 0 <= boxX && RightChain(rows0[boxY], boxX, k, Width(rows0))
    requires Rectangular(g.rows) && |g.rows| == |rows0| && Width(g.rows) == Width(rows0) && |rows0[boxY]| == Width(rows0)
    requires IsBox(At(rows0, boxX + 2, boxY)) ==> SlidRight(rows0, g.rows, boxX + 2, boxY)
    requires !IsBox(At(rows0, boxX + 2, boxY)) ==> g.rows == rows0
    modifies g
    ensures Rectangular(g.rows) && |g.rows| == |rows0| && Width(g.rows) == Width(rows0)
    ensures SlidRight(rows0, g.rows, boxX, boxY)
  {
    ghost var row := rows0[boxY];
    var tx := boxX + 1;
    ghost var rows1 := g.rows;
    ghost var r1 := rows1[boxY];
    assert rows1 == rows0[boxY := r1];
    CommitHorizontal(g, boxX, tx, boxY);
    ghost var r2 := r1[boxX := Floor][boxX + 1 := Floor][tx := BoxLeft][tx + 1 := BoxRight];
    assert g.rows == rows0[boxY := r2];
    if IsBox(At(rows0, tx + 1, boxY)) {
      var k': nat :| RightChain(row, tx + 1, k', |row|) && rows1 == rows0[boxY := SlideRight(row, tx + 1, k')];
      assert r1 == SlideRight(row, tx + 1, k');
      RightCommitRow(row, boxX, k');
      SlidRightBy(rows0, boxX, boxY, k' + 1, r2);
    } else {
      assert r1 == row;
      RightCommitFloor(row, boxX);
      SlidRightBy(rows0, boxX, boxY, 1, r2);
    }
  }

  /** A row replaced by its slide of `k` boxes witnesses `SlidRight`. */
  lemma SlidRightBy(rows: Rows, boxX: int, boxY: int, k: nat, newRow: seq<Cell>)
    requires 0 <= boxY < |rows| && 0 <= boxX && RightChain(rows[boxY], boxX, k, |rows[boxY]|)
    requires newRow == SlideRight(rows[boxY], boxX, k)
    ensures SlidRight(rows, rows[boxY := newRow], boxX, boxY)
  {
  }

  /** A row replaced by its slide of `k` boxes witnesses `SlidLeft`. */
  lemma SlidLeftBy(rows: Rows, boxX: int, boxY: int, k: nat, newRow: seq<Cell>)
    requires 0 <= boxY < |rows| && boxX + 1 < |rows[boxY]| && LeftChain(rows[boxY], boxX, k)
    requires newRow == SlideLeft(rows[boxY], boxX, k)
    ensures SlidLeft(rows, rows[boxY := newRow], boxX, boxY)
  {
  }

  /** The four writes that end a horizontal push: the box at `boxX` of row `y` is
      erased and redrawn at `tx`. */
  method CommitHorizontal(g: Grid, boxX: int, tx: int, y: int)
    requires Rectangular(g.rows) && 0 <= y < |g.rows|
    requires 0 <= boxX && boxX + 1 < Width(g.rows) && 0 <= tx && tx + 1 < Width(g.rows)
    modifies g
    ensures Rectangular(g.rows) && Width(g.rows) == old(Width(g.rows))
    ensures g.rows == old(g.rows)[y := old(g.rows[y])[boxX := Floor][boxX + 1 := Floor][tx := BoxLeft][tx + 1 := BoxRight]]
  {
    g.rows := WithCell(g.rows, boxX, y, Floor);
    g.rows := WithCell(g.rows, boxX + 1, y, Floor);
    g.rows := WithCell(g.rows, tx, y, BoxLeft);
    g.rows := WithCell(g.rows, tx + 1, y, BoxRight);
  }

  /** A whole box `[` `]` stands on cells `l`, `l + 1` of row `ty`. */
  predicate Landed(rows: Rows, l: int, ty: int) {
    0 <= ty < |rows| && 0 <= l && l + 1 < |rows[ty]| && rows[ty][l] == BoxLeft && rows[ty][l + 1] == BoxRight
  }

  /** The rows a vertical push in direction `d` from row `boxY` never touches. */
  predicate BehindPush(y: int, boxY: int, d: char) {
    if d == '^' then y > boxY else y < boxY
  }

  /** The four writes that end a vertical push: the box at `leftX` leaves row `boxY` for
      row `ty`, whose two cells hold no box half once the boxes in the way have moved.
      Every row stays paired, and only rows `boxY` and `ty` change. */
  method CommitVertical(g: Grid, leftX: int, boxY: int, ty: int)
    requires Rectangular(g.rows) && Paired(g.rows)
    requires 0 <= boxY < |g.rows| && 0 <= ty < |g.rows| && boxY != ty
    requires 0 <= leftX && leftX + 1 < Width(g.rows)
    requires g.rows[boxY][leftX] == BoxLeft && !IsBox(g.rows[ty][leftX]) && !IsBox(g.rows[ty][leftX + 1])
    modifies g
    ensures Rectangular(g.rows) && Paired(g.rows)
    ensures g.rows == old(g.rows)[boxY := old(g.rows[boxY])[leftX := Floor][leftX + 1 := Floor]]
      [ty := old(g.rows[ty])[leftX := BoxLeft][leftX + 1 := BoxRight]]
  {
    ghost var rows := g.rows;
    EraseBoxPaired(rows[boxY], leftX);
    PlaceBoxPaired(rows[ty], leftX);
    g.rows := WithCell(g.rows, leftX, boxY, Floor);
    g.rows := WithCell(g.rows, leftX + 1, boxY, Floor);
    g.rows := WithCell(g.rows, leftX, ty, BoxLeft);
    g.rows := WithCell(g.rows, leftX + 1, ty, BoxRight);
    forall y | 0 <= y < |g.rows| ensures PairedRow(g.rows[y]) {
      if y != boxY && y != ty { assert g.rows[y] == rows[y]; }
    }
  }

  /** Under the pairing invariant, a straddled pair `][` is two whole boxes; once the left
      one has moved away the right one is still whole, and once both have moved the two
      cells between them are free. */
  lemma StraddleTargets(t0: seq<Cell>, leftX: int)
    requires PairedRow(t0) && 0 <= leftX && leftX + 1 < |t0|
    requires t0[leftX] == BoxRight && t0[leftX + 1] == BoxLeft
    ensures WholeBoxAt(t0, leftX)
    ensures WholeBoxAt(Cleared(t0, leftX), leftX + 1)
    ensures var c := Cleared(Cleared(t0, leftX), leftX + 1); c[leftX] == Floor && c[leftX + 1] == Floor
  {
    assert PairedAt(t0, leftX) && PairedAt(t0, leftX + 1);
  }

  /** The box `moveBox` pushes first when one box (not a straddled pair) is in the way of
      the footprint `leftX`, `leftX + 1`: it is whole, and once it has moved the footprint
      holds no box half. */
  function BlockingBox(t0: seq<Cell>, leftX: int): (b: int)
    requires PairedRow(t0) && 0 <= leftX && leftX + 1 < |t0|
    requires !(t0[leftX] == BoxRight && t0[leftX + 1] == BoxLeft)
    requires IsBox(t0[leftX]) || IsBox(t0[leftX + 1])
    ensures WholeBoxAt(t0, b) && t0[b] == BoxLeft
    ensures var c := Cleared(t0, b); !IsBox(c[leftX]) && !IsBox(c[leftX + 1])
  {
    assert PairedAt(t0, leftX) && PairedAt(t0, leftX + 1);
    var b := if t0[leftX + 1] == BoxLeft then leftX + 1 else if t0[leftX] == BoxRight then leftX - 1 else leftX;
    assert b == leftX - 1 ==> PairedAt(t0, leftX - 1);
    b
  }

  /** `canPushBox` only lets a vertical push go ahead when the target row exists. */
  lemma VerticalTargetExists(rows: Rows, boxX: int, boxY: int, d: char)
    requires d == '^' || d == 'v'
    requires 0 <= boxY < |rows| && CanPushBox(rows, boxX, boxY, d, 0)
    ensures 0 <= TargetRow(boxY, d) < |rows|
  {
  }

  /** The vertical case of `moveBox` between the push check and the commit: it moves the
      straddled pair, or the single box, in front of the footprint `leftX`, `leftX + 1` of
      row `boxY`. On success the two target cells hold no box half. */
  method ClearFootprint(g: Grid, leftX: int, boxY: int, d: char) returns (ok: bool)
    requires d == '^' || d == 'v'
    requires Rectangular(g.rows) && Paired(g.rows) && 0 <= boxY < |g.rows|
    requires 0 <= TargetRow(boxY, d) < |g.rows| && 0 <= leftX && leftX + 1 < Width(g.rows)
    modifies g
    ensures Rectangular(g.rows) && |g.rows| == old(|g.rows|) && Width(g.rows) == old(Width(g.rows))
    ensures Paired(g.rows)
    ensures forall y :: 0 <= y < |g.rows| && BehindPush(y, TargetRow(boxY, d), d) ==> g.rows[y] == old(g.rows[y])
    ensures ok ==> !IsBox(g.rows[TargetRow(boxY, d)][leftX]) && !IsBox(g.rows[TargetRow(boxY, d)][leftX + 1])
    decreases if d == '^' then boxY else |g.rows| - boxY, 0
  {
    var ty := if d == '^' then boxY - 1 else boxY + 1;
    var rightX := leftX + 1;
    ghost var t0 := g.rows[ty];
    var l, r := At(g.rows, leftX, ty), At(g.rows, rightX, ty);
    if l == BoxRight && r == BoxLeft {
      StraddleTargets(t0, leftX);
      ok := PushVertical(g, leftX, ty, d);
      if ok {
        ok := PushVertical(g, rightX, ty, d);
      }
    } else if IsBox(l) || IsBox(r) {
      var boxLeftX := if r == BoxLeft then rightX else if l == BoxRight then leftX - 1 else leftX;
      assert boxLeftX == BlockingBox(t0, leftX);
      ok := PushVertical(g, boxLeftX, ty, d);
    } else {
      ok := true;
    }
  }

  /** The `'^'` and `'v'` cases of `moveBox`. A push that `canPushBox` refuses changes
      nothing; otherwise every row stays paired, the rows behind the push are never
      touched and, on success, both cells of the pushed box are freed and the box stands on
      the same columns of the row ahead. */
  method PushVertical(g: Grid, boxX: int, boxY: int, d: char) returns (ok: bool)
    requires d == '^' || d == 'v'
    requires Rectangular(g.rows) && Paired(g.rows) && 0 <= boxY < |g.rows|
    requires WholeBoxAt(g.rows[boxY], boxX)
    modifies g
    ensures Rectangular(g.rows) && |g.rows| == old(|g.rows|) && Width(g.rows) == old(Width(g.rows))
    ensures Paired(g.rows)
    ensures !old(CanPushBox(g.rows, boxX, boxY, d, 0)) ==> !ok && g.rows == old(g.rows)
    ensures forall y :: 0 <= y < |g.rows| && BehindPush(y, boxY, d) ==> g.rows[y] == old(g.rows[y])
    ensures g.rows[boxY] == if ok then Cleared(old(g.rows[boxY]), boxX) else old(g.rows[boxY])
    ensures ok ==> Landed(g.rows, old(FootLeft(g.rows, boxX, boxY)), TargetRow(boxY, d))
    decreases if d == '^' then boxY else |g.rows| - boxY, 1
  {
    if !CanPushBox(g.rows, boxX, boxY, d, 0) {
      return false;
    }
    VerticalTargetExists(g.rows, boxX, boxY, d);
    var ty := if d == '^' then boxY - 1 else boxY + 1;
    var leftX := if g.rows[boxY][boxX] == BoxLeft then boxX else boxX - 1;
    ok := ClearFootprint(g, leftX, boxY, d);
    if !ok { return false; }
    CommitVertical(g, leftX, boxY, ty);
    ok := true;
  }

  /** `moveBox`: it re-checks with `canPushBox`, moves the boxes in the way first and then
      rewrites the pushed box's cells. */
  method MoveBox(g: Grid, boxX: int, boxY: int, d: char) returns (ok: bool)
    requires Rectangular(g.rows) && 0 <= boxY < |g.rows| && 0 <= boxX < Width(g.rows)
    requires d == '<' ==> boxX + 1 < Width(g.rows)
    requires (d == '^' || d == 'v') ==> Paired(g.rows) && WholeBoxAt(g.rows[boxY], boxX)
    modifies g
    ensures Rectangular(g.rows) && |g.rows| == old(|g.rows|) && Width(g.rows) == old(Width(g.rows))
    ensures !old(CanPushBox(g.rows, boxX, boxY, d, 0)) ==> !ok && g.rows == old(g.rows)
    ensures d == '<' ==> ok == old(CanPushBox(g.rows, boxX, boxY, d, 0))
    ensures d == '<' && ok ==> SlidLeft(old(g.rows), g.rows, boxX, boxY)
    ensures d == '>' ==> ok == old(CanPushBox(g.rows, boxX, boxY, d, 0))
    ensures d == '>' && ok ==> SlidRight(old(g.rows), g.rows, boxX, boxY)
    ensures (d == '^' || d == 'v') ==> Paired(g.rows)
    ensures (d == '^' || d == 'v') ==>
      forall y :: 0 <= y < |g.rows| && BehindPush(y, boxY, d) ==> g.rows[y] == old(g.rows[y])
    ensures (d == '^' || d == 'v') ==>
      g.rows[boxY] == if ok then Cleared(old(g.rows[boxY]), boxX) else old(g.rows[boxY])
    ensures (d == '^' || d == 'v') && ok ==> Landed(g.rows, old(FootLeft(g.rows, boxX, boxY)), TargetRow(boxY, d))
  {
    if d == '<' {
      ok := PushLeft(g, boxX, boxY);
    } else if d == '>' {
      ok := PushRight(g, boxX, boxY);
    } else if d == '^' || d == 'v' {
      ok := PushVertical(g, boxX, boxY, d);
    } else {
      ok := false;
    }
  }

  // ---------------------------------------------------------------- the robot

  /** The grid after the robot leaves `p` for `q`. */
  function Stepped(rows: Rows, p: Pos, q: Pos): Rows
    requires 0 <= p.y < |rows| && 0 <= p.x < |rows[p.y]|
    requires 0 <= q.y < |rows| && 0 <= q.x < |rows[q.y]|
  {
    WithCell(WithCell(rows, p.x, p.y, Floor), q.x, q.y, Robot)
  }

  /** What one call of `moveRobot` in direction `d` does to a grid whose robot is at `p`:
      a wall (or the edge) stops it; it steps onto a free cell; a sideways push moves the
      whole chain exactly when `canPushBox` allows it; a vertical push that `canPushBox`
      refuses changes nothing, one that fails later leaves the box's row as it was, and one
      that succeeds leaves the robot on the box's old cell, the box on the same columns of
      the row ahead and the rows behind the robot untouched. */
  ghost predicate Moved(before: Rows, after: Rows, p: Pos, d: char, moved: bool)
    requires Rectangular(before) && Paired(before) && CellIs(before, p, Robot) && IsDirection(d)
  {
    var q := Step(p, d);
    match IsValidMove(before, q)
    case Blocked => !moved && after == before
    case Open => moved && after == Stepped(before, p, q)
    case BoxAhead =>
      var row := before[q.y];
      if d == '<' then
        moved == CanPushBox(before, q.x, q.y, d, 0)
        && (moved ==> exists k: nat ::
              LeftChain(row, q.x, k) && after == before[q.y := SlideLeft(row, q.x, k)[q.x := Robot]])
        && (!moved ==> after == before)
      else if d == '>' then
        moved == CanPushBox(before, q.x, q.y, d, 0)
        && (moved ==> exists k: nat ::
              RightChain(row, q.x, k, Width(before))
              && after == before[q.y := SlideRight(row, q.x, k)[p.x := Floor][q.x := Robot]])
        && (!moved ==> after == before)
      else
        PairedWholeBox(row, q.x);
        PushedVertically(before, after, p, q, d, moved)
  }

  /** The vertical case of `Moved`, for the robot at `p` walking into the box half at `q`. */
  ghost predicate PushedVertically(before: Rows, after: Rows, p: Pos, q: Pos, d: char, moved: bool)
    requires 0 <= p.y < |before| && 0 <= p.x < |before[p.y]|
    requires 0 <= q.y < |before| && WholeBoxAt(before[q.y], q.x)
  {
    var row := before[q.y];
    (!CanPushBox(before, q.x, q.y, d, 0) ==> !moved && after == before)
    && |after| == |before|
    && (forall y :: 0 <= y < |after| && BehindPush(y, p.y, d) ==> after[y] == before[y])
    && after[p.y] == (if moved then before[p.y][p.x := Floor] else before[p.y])
    && (moved ==> after[q.y] == Cleared(row, q.x)[q.x := Robot])
    && (moved ==> Landed(after, FootLeft(before, q.x, q.y), TargetRow(q.y, d)))
    && (!moved ==> after[q.y] == row)
  }

  /** `moveRobot`: find the robot (a missing robot throws), ignore an unknown direction,
      then step or push. Every move keeps the grid paired and keeps a robot on it. */
  method MoveRobot(g: Grid, d: char) returns (r: Result<bool>)
    requires Rectangular(g.rows) && Paired(g.rows)
    modifies g
    ensures Rectangular(g.rows) && Paired(g.rows)
    ensures |g.rows| == old(|g.rows|) && Width(g.rows) == old(Width(g.rows))
    ensures r.Err? <==> old(FirstRobot(g.rows)).None?
    ensures r.Err? ==> g.rows == old(g.rows)
    ensures r.Ok? ==> FirstRobot(g.rows).Some?
    ensures r.Ok? && !IsDirection(d) ==> r == Ok(false) && g.rows == old(g.rows)
    ensures r.Ok? && IsDirection(d) ==> Moved(old(g.rows), g.rows, old(FirstRobot(g.rows)).value, d, r.value)
  {
    var found := FindRobot(g.rows);
    if found.Err? {
      return Err(found.message);
    }
    var p := found.value;
    if !IsDirection(d) {
      return Ok(false);
    }
    var q := Step(p, d);
    var kind := IsValidMove(g.rows, q);
    if kind == Blocked {
      return Ok(false);
    }
    ghost var rows0 := g.rows;
    if kind == BoxAhead {
      if d == '^' || d == 'v' {
        PairedWholeBox(g.rows[q.y], q.x);
      }
      var pushed := MoveBox(g, q.x, q.y, d);
      if !pushed {
        assert (d == '^' || d == 'v') ==> g.rows[p.y] == rows0[p.y];
        return Ok(false);
      }
      PushThenStep(rows0, g.rows, p, q, d);
    } else {
      OpenStepPaired(rows0, p, q);
    }
    g.rows := WithCell(g.rows, p.x, p.y, Floor);
    g.rows := WithCell(g.rows, q.x, q.y, Robot);
    r := Ok(true);
    assert CellIs(g.rows, q, Robot);
  }

  /** A step onto a free cell keeps the grid paired. */
  lemma OpenStepPaired(rows0: Rows, p: Pos, q: Pos)
    requires Paired(rows0) && CellIs(rows0, p, Robot)
    requires 0 <= q.y < |rows0| && 0 <= q.x < |rows0[q.y]| && rows0[q.y][q.x] == Floor
    ensures Paired(Stepped(rows0, p, q))
  {
    var mid := WithCell(rows0, p.x, p.y, Floor);
    ReplaceNonBoxPaired(rows0[p.y], p.x, Floor);
    assert Paired(mid) by {
      forall y | 0 <= y < |mid| ensures PairedRow(mid[y]) {
        if y != p.y { assert mid[y] == rows0[y]; }
      }
    }
    assert mid[q.y][q.x] == Floor;
    ReplaceNonBoxPaired(mid[q.y], q.x, Robot);
    var r := Stepped(rows0, p, q);
    forall y | 0 <= y < |r| ensures PairedRow(r[y]) {
      if y != q.y { assert r[y] == mid[y]; }
    }
  }

  /** Once a push has succeeded, the robot's two writes keep the grid paired, and the
      whole move is the one `Moved` describes. */
  lemma PushThenStep(rows0: Rows, rows1: Rows, p: Pos, q: Pos, d: char)
    requires Rectangular(rows0) && Paired(rows0) && CellIs(rows0, p, Robot) && IsDirection(d) && q == Step(p, d)
    requires InGrid(rows0, q) && IsBox(rows0[q.y][q.x]) && IsValidMove(rows0, q) == BoxAhead
    requires Rectangular(rows1) && |rows1| == |rows0| && Width(rows1) == Width(rows0)
    requires d == '<' ==> SlidLeft(rows0, rows1, q.x, q.y) && CanPushBox(rows0, q.x, q.y, d, 0)
    requires d == '>' ==> SlidRight(rows0, rows1, q.x, q.y) && CanPushBox(rows0, q.x, q.y, d, 0)
    requires (d == '^' || d == 'v') ==> (Paired(rows1) && CanPushBox(rows0, q.x, q.y, d, 0)
      && WholeBoxAt(rows0[q.y], q.x) && rows1[q.y] == Cleared(rows0[q.y], q.x)
      && (forall y :: 0 <= y < |rows1| && BehindPush(y, q.y, d) ==> rows1[y] == rows0[y])
      && Landed(rows1, FootLeft(rows0, q.x, q.y), TargetRow(q.y, d)))
    ensures Paired(Stepped(rows1, p, q))
    ensures Moved(rows0, Stepped(rows1, p, q), p, d, true)
  {
    if d == '<' {
      PushThenStepLeft(rows0, rows1, p, q);
    } else if d == '>' {
      PushThenStepRight(rows0, rows1, p, q);
    } else {
      PushThenStepVertical(rows0, rows1, p, q, d);
    }
  }

  /** Only row `y` differs, and it is paired: the grid is paired. */
  lemma PairedOneRow(rows0: Rows, rows1: Rows, y: int)
    requires Paired(rows0) && |rows1| == |rows0| && 0 <= y < |rows1| && PairedRow(rows1[y])
    requires forall i :: 0 <= i < |rows1| && i != y ==> rows1[i] == rows0[i]
    ensures Paired(rows1)
  {
    forall i | 0 <= i < |rows1| ensures PairedRow(rows1[i]) {
      if i != y { assert rows1[i] == rows0[i]; }
    }
  }

  lemma PushThenStepLeft(rows0: Rows, rows1: Rows, p: Pos, q: Pos)
    requires Rectangular(rows0) && Paired(rows0) && CellIs(rows0, p, Robot) && q == Step(p, '<')
    requires InGrid(rows0, q) && IsBox(rows0[q.y][q.x]) && IsValidMove(rows0, q) == BoxAhead
    requires SlidLeft(rows0, rows1, q.x, q.y) && CanPushBox(rows0, q.x, q.y, '<', 0)
    ensures Paired(Stepped(rows1, p, q))
    ensures Moved(rows0, Stepped(rows1, p, q), p, '<', true)
  {
    var k: nat :| LeftChain(rows0[q.y], q.x, k) && rows1 == rows0[q.y := SlideLeft(rows0[q.y], q.x, k)];
    SteppedAfterSlideLeft(rows0, rows1, p, q, k);
  }

  /** The robot's two writes after a leftward slide of `k` further cells are the step into
      the cell the slide freed. */
  lemma SteppedAfterSlideLeft(rows0: Rows, rows1: Rows, p: Pos, q: Pos, k: nat)
    requires Rectangular(rows0) && Paired(rows0) && CellIs(rows0, p, Robot) && q == Step(p, '<')
    requires InGrid(rows0, q) && IsValidMove(rows0, q) == BoxAhead && CanPushBox(rows0, q.x, q.y, '<', 0)
    requires LeftChain(rows0[q.y], q.x, k) && rows1 == rows0[q.y := SlideLeft(rows0[q.y], q.x, k)]
    ensures Paired(Stepped(rows1, p, q))
    ensures Moved(rows0, Stepped(rows1, p, q), p, '<', true)
  {
    var row := rows0[q.y];
    var after := Stepped(rows1, p, q);
    assert p.y == q.y && p.x == q.x + 1;
    assert PairedRow(row) && row[q.x + 1] == Robot;
    SlideLeftPaired(row, q.x, k);
    var s := SlideLeft(row, q.x, k);
    assert s[p.x] == Floor;
    assert s[p.x := Floor] == s;
    assert after == rows0[q.y := s[q.x := Robot]];
    StepAfterSlideLeft(rows0, after, p, q, k);
  }

  /** The robot's step into the cell the slide freed keeps boxes whole and completes the
      move. */
  lemma StepAfterSlideLeft(rows0: Rows, after: Rows, p: Pos, q: Pos, k: nat)
    requires Rectangular(rows0) && Paired(rows0) && CellIs(rows0, p, Robot) && q == Step(p, '<')
    requires InGrid(rows0, q) && IsValidMove(rows0, q) == BoxAhead && CanPushBox(rows0, q.x, q.y, '<', 0)
    requires LeftChain(rows0[q.y], q.x, k) && PairedRow(SlideLeft(rows0[q.y], q.x, k))
    requires after == rows0[q.y := SlideLeft(rows0[q.y], q.x, k)[q.x := Robot]]
    ensures Paired(after) && Moved(rows0, after, p, '<', true)
  {
    ReplaceNonBoxPaired(SlideLeft(rows0[q.y], q.x, k), q.x, Robot);
    PairedOneRow(rows0, after, q.y);
  }

  lemma PushThenStepRight(rows0: Rows, rows1: Rows, p: Pos, q: Pos)
    requires Rectangular(rows0) && Paired(rows0) && CellIs(rows0, p, Robot) && q == Step(p, '>')
    requires InGrid(rows0, q) && IsBox(rows0[q.y][q.x]) && IsValidMove(rows0, q) == BoxAhead
    requires SlidRight(rows0, rows1, q.x, q.y) && CanPushBox(rows0, q.x, q.y, '>', 0)
    ensures Paired(Stepped(rows1, p, q))
    ensures Moved(rows0, Stepped(rows1, p, q), p, '>', true)
  {
    var row := rows0[q.y];
    var k: nat :| RightChain(row, q.x, k, |row|) && rows1 == rows0[q.y := SlideRight(row, q.x, k)];
    var after := rows0[q.y := SlideRight(row, q.x, k)[p.x := Floor][q.x := Robot]];
    assert p.y == q.y && p.x == q.x - 1;
    assert Stepped(rows1, p, q) == after;
    StepAfterSlideRight(rows0, after, p, q, k);
  }

  /** The robot's step into the cell the slide freed keeps boxes whole and completes the
      move. */
  lemma StepAfterSlideRight(rows0: Rows, after: Rows, p: Pos, q: Pos, k: nat)
    requires Rectangular(rows0) && Paired(rows0) && CellIs(rows0, p, Robot) && q == Step(p, '>')
    requires InGrid(rows0, q) && IsValidMove(rows0, q) == BoxAhead && CanPushBox(rows0, q.x, q.y, '>', 0)
    requires RightChain(rows0[q.y], q.x, k, Width(rows0))
    requires after == rows0[q.y := SlideRight(rows0[q.y], q.x, k)[p.x := Floor][q.x := Robot]]
    ensures Paired(after) && Moved(rows0, after, p, '>', true)
  {
    var row := rows0[q.y];
    SlideRightPaired(row, q.x, k);
    var s := SlideRight(row, q.x, k);
    ReplaceNonBoxPaired(s, p.x, Floor);
    ReplaceNonBoxPaired(s[p.x := Floor], q.x, Robot);
    PairedOneRow(rows0, after, q.y);
    MovedRight(rows0, after, p, q, k);
  }

  lemma MovedRight(rows0: Rows, after: Rows, p: Pos, q: Pos, k: nat)
    requires Rectangular(rows0) && Paired(rows0) && CellIs(rows0, p, Robot) && q == Step(p, '>')
    requires InGrid(rows0, q) && IsValidMove(rows0, q) == BoxAhead && CanPushBox(rows0, q.x, q.y, '>', 0)
    requires RightChain(rows0[q.y], q.x, k, Width(rows0))
    requires after == rows0[q.y := SlideRight(rows0[q.y], q.x, k)[p.x := Floor][q.x := Robot]]
    ensures Moved(rows0, after, p, '>', true)
  {
  }

  lemma PushThenStepVertical(rows0: Rows, rows1: Rows, p: Pos, q: Pos, d: char)
    requires Rectangular(rows0) && Paired(rows0) && CellIs(rows0, p, Robot) && (d == '^' || d == 'v') && q == Step(p, d)
    requires InGrid(rows0, q) && IsBox(rows0[q.y][q.x]) && IsValidMove(rows0, q) == BoxAhead
    requires Rectangular(rows1) && |rows1| == |rows0| && Width(rows1) == Width(rows0)
    requires Paired(rows1) && CanPushBox(rows0, q.x, q.y, d, 0)
    requires WholeBoxAt(rows0[q.y], q.x) && rows1[q.y] == Cleared(rows0[q.y], q.x)
    requires forall y :: 0 <= y < |rows1| && BehindPush(y, q.y, d) ==> rows1[y] == rows0[y]
    requires Landed(rows1, FootLeft(rows0, q.x, q.y), TargetRow(q.y, d))
    ensures Paired(Stepped(rows1, p, q))
    ensures Moved(rows0, Stepped(rows1, p, q), p, d, true)
  {
    var after := Stepped(rows1, p, q);
    assert BehindPush(p.y, q.y, d);
    assert rows1[p.y] == rows0[p.y];
    var mid := WithCell(rows1, p.x, p.y, Floor);
    ReplaceNonBoxPaired(rows1[p.y], p.x, Floor);
    PairedOneRow(rows1, mid, p.y);
    assert !IsBox(mid[q.y][q.x]);
    ReplaceNonBoxPaired(mid[q.y], q.x, Robot);
    PairedOneRow(mid, after, q.y);
    forall y | 0 <= y < |after| && BehindPush(y, p.y, d) ensures after[y] == rows0[y] {
      assert BehindPush(y, q.y, d);
    }
    var ty := TargetRow(q.y, d);
    assert ty != p.y && ty != q.y;
    assert after[ty] == rows1[ty];
    assert PushedVertically(rows0, after, p, q, d, true);
  }

  // ---------------------------------------------------------------- GPS and the run

  /** The GPS coordinates `100 y + x` of the `[` cells among the first `n` columns. */
  function RowGps(row: seq<Cell>, y: int, n: nat): int {
    if n == 0 then 0
    else RowGps(row, y, n - 1) + (if RowAt(row, n - 1) == BoxLeft then 100 * y + (n - 1) else 0)
  }

  function GpsOfRows(rows: Rows, n: nat, w: nat): int
    requires n <= |rows|
  {
    if n == 0 then 0 else GpsOfRows(rows, n - 1, w) + RowGps(rows[n - 1], n - 1, w)
  }

  /** The sum of the GPS coordinates of every box, each counted at its left half. */
  function Gps(rows: Rows): int {
    GpsOfRows(rows, |rows|, Width(rows))
  }

  /** `calculateGPS`: the rows are scanned across `grid[0].length` columns. */
  method CalculateGps(rows: Rows) returns (total: int)
    ensures total == Gps(rows)
  {
    total := 0;
    var w := Width(rows);
    var y := 0;
    while y < |rows|
      invariant 0 <= y <= |rows|
      invariant total == GpsOfRows(rows, y, w)
    {
      var x := 0;
      while x < w
        invariant 0 <= x <= w
        invariant total == GpsOfRows(rows, y, w) + RowGps(rows[y], y, x)
      {
        if RowAt(rows[y], x) == BoxLeft {
          total := total + (100 * y + x);
        }
        x := x + 1;
      }
      y := y + 1;
    }
  }

  /** Only `[` cells contribute: rewriting a cell that holds no `[` into another such
      cell leaves the GPS sum unchanged, so a plain step of the robot never changes it. */
  lemma {:induction false} GpsIgnoresOtherCells(rows: Rows, x: int, y: int, c: Cell)
    requires 0 <= y < |rows| && 0 <= x < |rows[y]|
    requires rows[y][x] != BoxLeft && c != BoxLeft
    ensures Gps(WithCell(rows, x, y, c)) == Gps(rows)
  {
    var rows' := WithCell(rows, x, y, c);
    var w := Width(rows);
    assert Width(rows') == w;
    RowGpsIgnores(rows[y], y, x, c, w);
    GpsOfRowsOneRow(rows, rows', y, |rows|, w);
  }

  lemma {:induction false} RowGpsIgnores(row: seq<Cell>, y: int, x: int, c: Cell, n: nat)
    requires 0 <= x < |row| && row[x] != BoxLeft && c != BoxLeft
    ensures RowGps(row[x := c], y, n) == RowGps(row, y, n)
  {
    if n > 0 {
      RowGpsIgnores(row, y, x, c, n - 1);
    }
  }

  lemma {:induction false} GpsOfRowsOneRow(rows: Rows, rows': Rows, y: int, n: nat, w: nat)
    requires |rows'| == |rows| && n <= |rows| && 0 <= y < |rows|
    requires forall i :: 0 <= i < |rows| && i != y ==> rows'[i] == rows[i]
    requires RowGps(rows'[y], y, w) == RowGps(rows[y], y, w)
    ensures GpsOfRows(rows', n, w) == GpsOfRows(rows, n, w)
  {
    if n > 0 {
      GpsOfRowsOneRow(rows, rows', y, n - 1, w);
    }
  }

  ghost predicate HasDirection(s: string) {
    exists i :: 0 <= i < |s| && IsDirection(s[i])
  }

  /** One character of the movement string: a non-direction is skipped; a direction is one
      `moveRobot` call from the first robot, which must exist (otherwise the call throws). */
  ghost predicate PlayedOne(before: Rows, d: char, after: Rows) {
    if !IsDirection(d) then after == before
    else
      Rectangular(before) && Paired(before) && FirstRobot(before).Some?
      && exists moved: bool :: Moved(before, after, FirstRobot(before).value, d, moved)
  }

  /** `rows` is a grid that playing `moves` from `rows0`, one character after another, can
      leave. A relation rather than a function, since a vertical push `Moved` describes
      does not fix every row in front of the box. */
  ghost predicate Played(rows0: Rows, moves: string, rows: Rows)
    decreases |moves|, 1
  {
    if moves == [] then rows == rows0
    else PlayedThen(rows0, moves[..|moves| - 1], moves[|moves| - 1], rows)
  }

  /** Some grid that `init` can leave is one from which character `d` leads to `rows`. */
  ghost predicate PlayedThen(rows0: Rows, init: string, d: char, rows: Rows)
    decreases |init| + 1, 0
  {
    exists mid: Rows :: Played(rows0, init, mid) && PlayedOne(mid, d, rows)
  }

  /** A movement string without a direction character leaves the grid as it is. */
  lemma {:induction false} PlayedSkipsOthers(rows0: Rows, moves: string, rows: Rows)
    requires !HasDirection(moves) && Played(rows0, moves, rows)
    ensures rows == rows0
    decreases |moves|
  {
    if moves != [] {
      var init := moves[..|moves| - 1];
      assert PlayedThen(rows0, init, moves[|moves| - 1], rows);
      var mid :| Played(rows0, init, mid) && PlayedOne(mid, moves[|moves| - 1], rows);
      assert !IsDirection(moves[|moves| - 1]);
      assert !HasDirection(init) by {
        forall j | 0 <= j < |init| ensures !IsDirection(init[j]) {
          assert init[j] == moves[j];
        }
      }
      PlayedSkipsOthers(rows0, init, mid);
    }
  }

  /** The movement loop of `solve_pt2`: every direction character is played, the others
      are skipped; the first move on a map without a robot throws. */
  method PlayMoves(g: Grid, moves: string) returns (r: Result<()>)
    requires Rectangular(g.rows) && Paired(g.rows)
    modifies g
    ensures Rectangular(g.rows) && Paired(g.rows)
    ensures |g.rows| == old(|g.rows|) && Width(g.rows) == old(Width(g.rows))
    ensures r.Err? <==> old(FirstRobot(g.rows)).None? && HasDirection(moves)
    ensures r.Ok? ==> Played(old(g.rows), moves, g.rows)
  {
    ghost var rows0 := g.rows;
    var i := 0;
    while i < |moves|
      invariant 0 <= i <= |moves|
      invariant Rectangular(g.rows) && Paired(g.rows)
      invariant |g.rows| == |rows0| && Width(g.rows) == Width(rows0)
      invariant FirstRobot(g.rows).Some? == FirstRobot(rows0).Some?
      invariant FirstRobot(rows0).None? ==> forall j :: 0 <= j < i ==> !IsDirection(moves[j])
      invariant Played(rows0, moves[..i], g.rows)
    {
      ghost var mid := g.rows;
      if IsDirection(moves[i]) {
        var moved := MoveRobot(g, moves[i]);
        if moved.Err? {
          return Err(moved.message);
        }
        assert PlayedOne(mid, moves[i], g.rows);
      }
      assert moves[..i + 1][..i] == moves[..i];
      assert PlayedOne(mid, moves[..i + 1][i], g.rows);
      i := i + 1;
    }
    assert moves[..i] == moves;
    return Ok(());
  }

  /** `solve_pt2`: parse, play the movements and sum the GPS coordinates of the final
      grid. A parse error throws, and so does the first move on a map without a robot. */
  method SolvePart2(input: string) returns (r: Result<int>, ghost final: Rows)
    requires ParseInput(input).Ok? ==> Rectangular(ParseInput(input).value.grid)
    ensures ParseInput(input).Err? ==> r.Err?
    ensures ParseInput(input).Ok? ==>
      (r.Err? <==> FirstRobot(ParseInput(input).value.grid).None? && HasDirection(ParseInput(input).value.movements))
    ensures r.Ok? ==> Paired(final) && Rectangular(final) && r.value == Gps(final)
    ensures r.Ok? ==> |final| == |ParseInput(input).value.grid| && Width(final) == Width(ParseInput(input).value.grid)
    ensures r.Ok? ==> Played(ParseInput(input).value.grid, ParseInput(input).value.movements, final)
  {
    var parsed := ParseInput(input);
    if parsed.Err? {
      return Err(parsed.message), [];
    }
    var g := new Grid(parsed.value.grid);
    var played := PlayMoves(g, parsed.value.movements);
    if played.Err? {
      return Err(played.message), g.rows;
    }
    var total := CalculateGps(g.rows);
    return Ok(total), g.rows;
  }
}
