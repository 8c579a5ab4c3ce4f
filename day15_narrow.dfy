/** Day 15, part 1 (node_runner/src/solved/index.day15.pt1.ts): a warehouse whose boxes are
    one cell wide. The `Warehouse` object keeps the map text, the robot position and the
    list of box positions; a move pushes the chain of boxes in front of the robot. */
module Day15Narrow {
  import opened Wrappers
  import opened JsText

  datatype Pos = Pos(x: int, y: int)

  predicate IsDirection(d: char) { d == '^' || d == 'v' || d == '<' || d == '>' }

  /** `getNextPosition`: one unit step in the direction. */
  function Next(p: Pos, d: char): (q: Pos)
    requires IsDirection(d)
    ensures d == '^' ==> q == Pos(p.x, p.y - 1)
    ensures d == 'v' ==> q == Pos(p.x, p.y + 1)
    ensures d == '<' ==> q == Pos(p.x - 1, p.y)
    ensures d == '>' ==> q == Pos(p.x + 1, p.y)
  {
    match d
    case '^' => Pos(p.x, p.y - 1)
    case 'v' => Pos(p.x, p.y + 1)
    case '<' => Pos(p.x - 1, p.y)
    case '>' => Pos(p.x + 1, p.y)
  }

  /** `p` moved `k` steps in direction `d`. */
  function Offset(p: Pos, d: char, k: int): Pos
    requires IsDirection(d)
  {
    match d
    case '^' => Pos(p.x, p.y - k)
    case 'v' => Pos(p.x, p.y + k)
    case '<' => Pos(p.x - k, p.y)
    case '>' => Pos(p.x + k, p.y)
  }

  lemma OffsetNext(p: Pos, d: char, k: int)
    requires IsDirection(d)
    ensures Offset(Next(p, d), d, k) == Offset(p, d, k + 1)
    ensures Offset(p, d, 0) == p
  {
  }

  predicate InBounds(p: Pos, w: int, h: int) { 0 <= p.x < w && 0 <= p.y < h }

  /** `isWall`: the map character at `p` is `#`; a column past the end of a shorter row
      reads `undefined`, which is no wall. */
  predicate IsWall(grid: seq<string>, p: Pos)
    requires 0 <= p.y < |grid| && 0 <= p.x
  {
    p.x < |grid[p.y]| && grid[p.y][p.x] == '#'
  }

  /** `isValidPosition`: inside the `width` × `height` rectangle and not a wall. */
  predicate IsValidPosition(grid: seq<string>, w: int, p: Pos) {
    InBounds(p, w, |grid|) && !IsWall(grid, p)
  }

  /** `getBoxAt`: `findIndex` over the box list, -1 when no box stands at `p`. */
  function BoxAt(boxes: seq<Pos>, p: Pos): (i: int)
    ensures -1 <= i < |boxes|
    ensures i >= 0 ==> boxes[i] == p && forall j :: 0 <= j < i ==> boxes[j] != p
    ensures i == -1 <==> p !in boxes
  {
    if |boxes| == 0 then -1
    else if boxes[0] == p then 0
    else
      var i := BoxAt(boxes[1..], p);
      assert p in boxes[1..] ==> p in boxes;
      assert p in boxes ==> p in boxes[1..];
      if i == -1 then -1 else i + 1
  }

  /** How many more steps in direction `d` stay inside the grid. */
  function Room(p: Pos, d: char, w: int, h: int): int
    requires IsDirection(d)
  {
    match d
    case '^' => p.y
    case 'v' => h - p.y
    case '<' => p.x
    case '>' => w - p.x
  }

  predicate AllInBounds(boxes: seq<Pos>, w: int, h: int) {
    forall i :: 0 <= i < |boxes| ==> InBounds(boxes[i], w, h)
  }

  /** The chain `getBoxChain` collects from `cur`: the indices of the boxes on `cur`,
      `cur + d`, ... up to the first cell without a box, or `None` when the cell after a
      box is a wall or off the map. */
  function Chain(grid: seq<string>, w: int, boxes: seq<Pos>, cur: Pos, d: char): (r: Option<seq<nat>>)
    requires IsDirection(d) && AllInBounds(boxes, w, |grid|)
    decreases Room(cur, d, w, |grid|) + 1
  {
    var i := BoxAt(boxes, cur);
    if i == -1 then Some([])
    else
      var n := Next(cur, d);
      if !IsValidPosition(grid, w, n) then None
      else
        match Chain(grid, w, boxes, n, d)
        case None => None
        case Some(c) => Some([i as nat] + c)
  }

  /** The chain `c` holds, in order, the boxes at `cur + k·d`; the cells they move into are
      valid; the cell after the last box holds none. */
  predicate ChainLaidOut(grid: seq<string>, w: int, boxes: seq<Pos>, cur: Pos, d: char, c: seq<nat>)
    requires IsDirection(d)
  {
    (forall k :: 0 <= k < |c| ==> c[k] < |boxes| && boxes[c[k]] == Offset(cur, d, k))
    && (forall k :: 1 <= k <= |c| ==> IsValidPosition(grid, w, Offset(cur, d, k)))
    && Offset(cur, d, |c|) !in boxes
  }

  /** A chain found from `cur` holds, in order, the boxes at `cur + k·d`; the cells they
      move into are valid; the cell after the last box holds none. */
  lemma {:induction false} ChainShape(grid: seq<string>, w: int, boxes: seq<Pos>, cur: Pos, d: char)
    requires IsDirection(d) && AllInBounds(boxes, w, |grid|)
    requires Chain(grid, w, boxes, cur, d).Some?
    ensures ChainLaidOut(grid, w, boxes, cur, d, Chain(grid, w, boxes, cur, d).value)
    decreases Room(cur, d, w, |grid|) + 1
  {
    var i := BoxAt(boxes, cur);
    OffsetNext(cur, d, 0);
    if i != -1 {
      var n := Next(cur, d);
      ChainShape(grid, w, boxes, n, d);
      var c := Chain(grid, w, boxes, n, d).value;
      var c' := [i as nat] + c;
      assert Chain(grid, w, boxes, cur, d).value == c';
      forall k | 0 <= k < |c'| ensures c'[k] < |boxes| && boxes[c'[k]] == Offset(cur, d, k) {
        if k > 0 {
          assert c'[k] == c[k - 1];
          OffsetNext(cur, d, k - 1);
        }
      }
      forall k | 1 <= k <= |c'| ensures IsValidPosition(grid, w, Offset(cur, d, k)) {
        OffsetNext(cur, d, k - 1);
        if k > 1 {
          assert IsValidPosition(grid, w, Offset(n, d, k - 1));
        }
      }
      OffsetNext(cur, d, |c|);
    }
  }

  /** Steps in one direction reach different cells. */
  lemma OffsetInjective(p: Pos, d: char, j: int, k: int)
    requires IsDirection(d) && j != k
    ensures Offset(p, d, j) != Offset(p, d, k)
  {
  }

  /** No index occurs twice in a chain, because its boxes stand on different cells. */
  lemma ChainDistinct(grid: seq<string>, w: int, boxes: seq<Pos>, cur: Pos, d: char)
    requires IsDirection(d) && AllInBounds(boxes, w, |grid|)
    requires Chain(grid, w, boxes, cur, d).Some?
    ensures var c := Chain(grid, w, boxes, cur, d).value;
      forall j, k :: 0 <= j < k < |c| ==> c[j] != c[k]
  {
    ChainShape(grid, w, boxes, cur, d);
    var c := Chain(grid, w, boxes, cur, d).value;
    forall j, k | 0 <= j < k < |c| ensures c[j] != c[k] {
      OffsetInjective(cur, d, j, k);
    }
  }

  /** `getBoxChain` turns a refused chain into the empty list. */
  function ChainOrEmpty(c: Option<seq<nat>>): seq<nat> {
    match c
    case None => []
    case Some(s) => s
  }

  /** The box list after every box of `chain` has stepped once in direction `d`. */
  function Shifted(boxes: seq<Pos>, chain: seq<nat>, d: char): (r: seq<Pos>)
    requires IsDirection(d)
    ensures |r| == |boxes|
  {
    seq(|boxes|, j requires 0 <= j < |boxes| => if j in chain then Next(boxes[j], d) else boxes[j])
  }

  /** `canMove`, as written: a blocked target refuses, a free target accepts, and a box
      target accepts exactly when `getBoxChain` returns a non-empty chain. */
  function CanMove(grid: seq<string>, w: int, boxes: seq<Pos>, robot: Pos, d: char): bool
    requires IsDirection(d) && AllInBounds(boxes, w, |grid|)
  {
    var n := Next(robot, d);
    if !IsValidPosition(grid, w, n) then false
    else if BoxAt(boxes, n) == -1 then true
    else |ChainOrEmpty(Chain(grid, w, boxes, n, d))| != 0
  }

  /** A move is allowed exactly when the target is valid and either holds no box or starts
      a chain that ends before a wall or the edge. */
  lemma CanMoveIff(grid: seq<string>, w: int, boxes: seq<Pos>, robot: Pos, d: char)
    requires IsDirection(d) && AllInBounds(boxes, w, |grid|)
    ensures var n := Next(robot, d);
      CanMove(grid, w, boxes, robot, d) <==>
        IsValidPosition(grid, w, n) && (n !in boxes || Chain(grid, w, boxes, n, d).Some?)
  {
    var n := Next(robot, d);
    if IsValidPosition(grid, w, n) && n in boxes && Chain(grid, w, boxes, n, d).Some? {
      assert Chain(grid, w, boxes, n, d).value != [];
    }
  }

  /** The sum of `100 y + x` over the boxes. */
  function Gps(boxes: seq<Pos>): int {
    if boxes == [] then 0 else Gps(boxes[..|boxes| - 1]) + 100 * boxes[|boxes| - 1].y + boxes[|boxes| - 1].x
  }

  /** The GPS coordinate of one box. */
  function Weight(p: Pos): int { 100 * p.y + p.x }

  /** How much one step in direction `d` changes a box's GPS coordinate. */
  function Delta(d: char): (r: int)
    requires IsDirection(d)
    ensures forall p :: Weight(Next(p, d)) == Weight(p) + r
  {
    match d
    case '^' => -100
    case 'v' => 100
    case '<' => -1
    case '>' => 1
  }

  /** Replacing one box changes the sum by the difference of the two coordinates. */
  lemma {:induction false} GpsUpdate(boxes: seq<Pos>, j: nat, p: Pos)
    requires j < |boxes|
    ensures Gps(boxes[j := p]) == Gps(boxes) - Weight(boxes[j]) + Weight(p)
    decreases |boxes|
  {
    var n := |boxes| - 1;
    var b := boxes[j := p];
    if j == n {
      assert b[..n] == boxes[..n];
    } else {
      assert b[..n] == boxes[..n][j := p];
      GpsUpdate(boxes[..n], j, p);
    }
  }

  /** Pushing a chain of distinct boxes one step changes the GPS sum by the chain length
      times the step's weight (100 for `^`/`v`, 1 for `<`/`>`). */
  lemma {:induction false} GpsShifted(boxes: seq<Pos>, chain: seq<nat>, d: char)
    requires IsDirection(d)
    requires forall k :: 0 <= k < |chain| ==> chain[k] < |boxes|
    requires forall j, k :: 0 <= j < k < |chain| ==> chain[j] != chain[k]
    ensures Gps(Shifted(boxes, chain, d)) == Gps(boxes) + |chain| * Delta(d)
  {
    if chain == [] {
      assert Shifted(boxes, chain, d) == boxes;
    } else {
      var c := chain[0];
      var rest := chain[1..];
      var mid := Shifted(boxes, rest, d);
      assert c !in rest by {
        forall k | 0 <= k < |rest| ensures rest[k] != c {
          assert rest[k] == chain[k + 1];
        }
      }
      assert Shifted(boxes, chain, d) == mid[c := Next(boxes[c], d)];
      GpsShifted(boxes, rest, d);
      GpsUpdate(mid, c, Next(boxes[c], d));
    }
  }

  /** The map positions of the `O` characters among the first `x` columns of row `y`. */
  function RowBoxes(row: string, y: int, x: nat): seq<Pos> {
    if x == 0 then []
    else RowBoxes(row, y, x - 1) + (if x - 1 < |row| && row[x - 1] == 'O' then [Pos(x - 1, y)] else [])
  }

  /** The `O` positions of the first `y` rows, in row-major order. */
  function GridBoxes(grid: seq<string>, w: nat, y: nat): seq<Pos>
    requires y <= |grid|
  {
    if y == 0 then [] else GridBoxes(grid, w, y - 1) + RowBoxes(grid[y - 1], y - 1, w)
  }

  /** The last `@` among the first `x` columns of a row, on top of `prev`. */
  function RowRobot(row: string, y: int, x: nat, prev: Option<Pos>): Option<Pos> {
    if x == 0 then prev
    else
      var before := RowRobot(row, y, x - 1, prev);
      if x - 1 < |row| && row[x - 1] == '@' then Some(Pos(x - 1, y)) else before
  }

  /** The last `@` of the first `y` rows in row-major order. */
  function GridRobot(grid: seq<string>, w: nat, y: nat): Option<Pos>
    requires y <= |grid|
  {
    if y == 0 then None else RowRobot(grid[y - 1], y - 1, w, GridRobot(grid, w, y - 1))
  }

  lemma {:induction false} RowBoxesCells(row: string, y: int, x: nat, k: int)
    requires 0 <= k < |RowBoxes(row, y, x)|
    ensures var p := RowBoxes(row, y, x)[k];
      p.y == y && 0 <= p.x < x && p.x < |row| && row[p.x] == 'O'
  {
    if x > 0 {
      var before := RowBoxes(row, y, x - 1);
      if k < |before| {
        RowBoxesCells(row, y, x - 1, k);
      }
    }
  }

  /** Every scanned box is an `O` cell inside the rectangle. */
  lemma {:induction false} GridBoxesCells(grid: seq<string>, w: nat, y: nat, k: int)
    requires y <= |grid| && 0 <= k < |GridBoxes(grid, w, y)|
    ensures var p := GridBoxes(grid, w, y)[k];
      0 <= p.y < y && 0 <= p.x < w && p.x < |grid[p.y]| && grid[p.y][p.x] == 'O'
  {
    var before := GridBoxes(grid, w, y - 1);
    if k < |before| {
      GridBoxesCells(grid, w, y - 1, k);
    } else {
      RowBoxesCells(grid[y - 1], y - 1, w, k - |before|);
    }
  }

  lemma {:induction false} RowRobotCell(row: string, y: int, x: nat, prev: Option<Pos>)
    requires RowRobot(row, y, x, prev).Some? && RowRobot(row, y, x, prev) != prev
    ensures var p := RowRobot(row, y, x, prev).value;
      p.y == y && 0 <= p.x < x && p.x < |row| && row[p.x] == '@'
  {
    if x > 0 && !(x - 1 < |row| && row[x - 1] == '@') {
      RowRobotCell(row, y, x - 1, prev);
    }
  }

  /** The scanned robot, if any, is an `@` cell inside the rectangle. */
  lemma {:induction false} GridRobotCell(grid: seq<string>, w: nat, y: nat)
    requires y <= |grid| && GridRobot(grid, w, y).Some?
    ensures var p := GridRobot(grid, w, y).value;
      0 <= p.y < y && 0 <= p.x < w && p.x < |grid[p.y]| && grid[p.y][p.x] == '@'
  {
    var prev := GridRobot(grid, w, y - 1);
    if RowRobot(grid[y - 1], y - 1, w, prev) == prev {
      GridRobotCell(grid, w, y - 1);
    } else {
      RowRobotCell(grid[y - 1], y - 1, w, prev);
    }
  }

  /** No position occurs twice. */
  predicate Distinct(s: seq<Pos>) {
    forall i, j :: 0 <= i < j < |s| ==> s[i] != s[j]
  }

  /** A scan lists no cell twice. */
  lemma {:induction false} GridBoxesDistinct(grid: seq<string>, w: nat, y: nat)
    requires y <= |grid|
    ensures Distinct(GridBoxes(grid, w, y))
  {
    if y > 0 {
      GridBoxesDistinct(grid, w, y - 1);
      var before := GridBoxes(grid, w, y - 1);
      var row := RowBoxes(grid[y - 1], y - 1, w);
      RowBoxesDistinct(grid[y - 1], y - 1, w);
      forall i, j | 0 <= i < |before| && 0 <= j < |row| ensures before[i] != row[j] {
        GridBoxesCells(grid, w, y - 1, i);
        RowBoxesCells(grid[y - 1], y - 1, w, j);
      }
      DistinctAppend(before, row);
    }
  }

  /** Two lists without repeats and without a common position join into one without
      repeats. */
  lemma DistinctAppend(a: seq<Pos>, b: seq<Pos>)
    requires Distinct(a) && Distinct(b)
    requires forall i, j :: 0 <= i < |a| && 0 <= j < |b| ==> a[i] != b[j]
    ensures Distinct(a + b)
  {
    var c := a + b;
    forall i, j | 0 <= i < j < |c| ensures c[i] != c[j] {
      if j < |a| {
        assert c[i] == a[i] && c[j] == a[j];
      } else if i >= |a| {
        assert c[i] == b[i - |a|] && c[j] == b[j - |a|];
      } else {
        assert c[i] == a[i] && c[j] == b[j - |a|];
      }
    }
  }

  lemma {:induction false} RowBoxesDistinct(row: string, y: int, x: nat)
    ensures Distinct(RowBoxes(row, y, x))
  {
    if x > 0 {
      RowBoxesDistinct(row, y, x - 1);
      var before := RowBoxes(row, y, x - 1);
      var last := if x - 1 < |row| && row[x - 1] == 'O' then [Pos(x - 1, y)] else [];
      forall i, j | 0 <= i < |before| && 0 <= j < |last| ensures before[i] != last[j] {
        RowBoxesCells(row, y, x - 1, i);
      }
      assert RowBoxes(row, y, x) == before + last;
      DistinctAppend(before, last);
    }
  }

  /** The warehouse invariant: the robot and every box stand on valid cells, no two boxes
      share a cell and no box stands under the robot. */
  predicate Consistent(grid: seq<string>, w: int, boxes: seq<Pos>, robot: Pos) {
    AllInBounds(boxes, w, |grid|)
    && IsValidPosition(grid, w, robot)
    && (forall i :: 0 <= i < |boxes| ==> IsValidPosition(grid, w, boxes[i]))
    && (forall i, j :: 0 <= i < j < |boxes| ==> boxes[i] != boxes[j])
    && robot !in boxes
  }

  /** The boxes a move pushes: the chain in front of the robot, if any. */
  function Pushed(grid: seq<string>, w: int, boxes: seq<Pos>, robot: Pos, d: char): seq<nat>
    requires IsDirection(d) && AllInBounds(boxes, w, |grid|)
  {
    var n := Next(robot, d);
    if n in boxes then ChainOrEmpty(Chain(grid, w, boxes, n, d)) else []
  }

  /** Where a move leaves the boxes: the pushed chain steps once. */
  function MovedBoxes(grid: seq<string>, w: int, boxes: seq<Pos>, robot: Pos, d: char): (r: seq<Pos>)
    requires IsDirection(d) && AllInBounds(boxes, w, |grid|)
    ensures |r| == |boxes|
  {
    Shifted(boxes, Pushed(grid, w, boxes, robot, d), d)
  }

  /** An allowed move changes the GPS sum by the number of pushed boxes times the step's
      weight, and pushes at least one box exactly when a box stood on the target. */
  lemma MoveGps(grid: seq<string>, w: int, boxes: seq<Pos>, robot: Pos, d: char)
    requires IsDirection(d) && Consistent(grid, w, boxes, robot)
    requires CanMove(grid, w, boxes, robot, d)
    ensures var pushed := Pushed(grid, w, boxes, robot, d);
      Gps(MovedBoxes(grid, w, boxes, robot, d)) == Gps(boxes) + |pushed| * Delta(d)
      && (|pushed| > 0 <==> Next(robot, d) in boxes)
  {
    var n := Next(robot, d);
    CanMoveIff(grid, w, boxes, robot, d);
    if n in boxes {
      ChainShape(grid, w, boxes, n, d);
      ChainDistinct(grid, w, boxes, n, d);
      assert Chain(grid, w, boxes, n, d).value != [];
    }
    GpsShifted(boxes, Pushed(grid, w, boxes, robot, d), d);
  }

  /** The box of chain index `j` stands `k` steps from `n` and moves one step further. */
  lemma ChainIndex(grid: seq<string>, w: int, boxes: seq<Pos>, n: Pos, d: char, c: seq<nat>, j: nat) returns (k: nat)
    requires IsDirection(d) && ChainLaidOut(grid, w, boxes, n, d, c) && j in c
    ensures k < |c| && c[k] == j && boxes[j] == Offset(n, d, k) && Next(boxes[j], d) == Offset(n, d, k + 1)
  {
    k :| 0 <= k < |c| && c[k] == j;
  }

  /** A box off the chain stands on none of the cells n .. n + |c|·d. */
  lemma OffChain(grid: seq<string>, w: int, boxes: seq<Pos>, n: Pos, d: char, c: seq<nat>, j: nat, k: nat)
    requires IsDirection(d) && ChainLaidOut(grid, w, boxes, n, d, c)
    requires forall i, j :: 0 <= i < j < |boxes| ==> boxes[i] != boxes[j]
    requires j < |boxes| && j !in c && k <= |c|
    ensures boxes[j] != Offset(n, d, k)
  {
    if k < |c| {
      assert boxes[c[k]] == Offset(n, d, k);
      assert c[k] != j;
    }
  }

  /** Shifting a laid-out chain keeps the boxes on distinct cells. */
  lemma ShiftedDistinct(grid: seq<string>, w: int, boxes: seq<Pos>, n: Pos, d: char, c: seq<nat>)
    requires IsDirection(d) && ChainLaidOut(grid, w, boxes, n, d, c)
    requires forall i, j :: 0 <= i < j < |boxes| ==> boxes[i] != boxes[j]
    ensures var b := Shifted(boxes, c, d); forall i, j :: 0 <= i < j < |b| ==> b[i] != b[j]
  {
    var b := Shifted(boxes, c, d);
    forall i, j | 0 <= i < j < |b| ensures b[i] != b[j] {
      ShiftedPair(grid, w, boxes, n, d, c, i, j);
    }
  }

  /** Two boxes stand on different cells after the shift. */
  lemma ShiftedPair(grid: seq<string>, w: int, boxes: seq<Pos>, n: Pos, d: char, c: seq<nat>, i: nat, j: nat)
    requires IsDirection(d) && ChainLaidOut(grid, w, boxes, n, d, c)
    requires forall i, j :: 0 <= i < j < |boxes| ==> boxes[i] != boxes[j]
    requires i < j < |boxes|
    ensures Shifted(boxes, c, d)[i] != Shifted(boxes, c, d)[j]
  {
    if i in c && j in c {
      var ki := ChainIndex(grid, w, boxes, n, d, c, i);
      var kj := ChainIndex(grid, w, boxes, n, d, c, j);
      OffsetInjective(n, d, ki + 1, kj + 1);
    } else if i in c {
      var ki := ChainIndex(grid, w, boxes, n, d, c, i);
      OffChain(grid, w, boxes, n, d, c, j, ki + 1);
    } else if j in c {
      var kj := ChainIndex(grid, w, boxes, n, d, c, j);
      OffChain(grid, w, boxes, n, d, c, i, kj + 1);
    }
  }

  /** Shifting a laid-out chain keeps every box on a valid cell and frees the chain's
      first cell `n`. */
  lemma ShiftedValid(grid: seq<string>, w: int, boxes: seq<Pos>, n: Pos, d: char, c: seq<nat>)
    requires IsDirection(d) && ChainLaidOut(grid, w, boxes, n, d, c)
    requires forall i :: 0 <= i < |boxes| ==> IsValidPosition(grid, w, boxes[i])
    requires forall i, j :: 0 <= i < j < |boxes| ==> boxes[i] != boxes[j]
    ensures var b := Shifted(boxes, c, d);
      (forall i :: 0 <= i < |b| ==> IsValidPosition(grid, w, b[i])) && n !in b
  {
    var b := Shifted(boxes, c, d);
    assert Offset(n, d, 0) == n;
    forall i | 0 <= i < |b| ensures IsValidPosition(grid, w, b[i]) && b[i] != n {
      if i in c {
        var k := ChainIndex(grid, w, boxes, n, d, c, i);
        OffsetInjective(n, d, 0, k + 1);
      } else {
        OffChain(grid, w, boxes, n, d, c, i, 0);
      }
    }
  }

  /** One move keeps the warehouse consistent: the chain's boxes step onto the cells in
      front of them (the last one onto a valid cell that held no box) and the robot onto
      the cell the first box left. */
  lemma MoveKeepsConsistent(grid: seq<string>, w: int, boxes: seq<Pos>, robot: Pos, d: char)
    requires IsDirection(d) && Consistent(grid, w, boxes, robot)
    requires CanMove(grid, w, boxes, robot, d)
    ensures Consistent(grid, w, MovedBoxes(grid, w, boxes, robot, d), Next(robot, d))
  {
    var n := Next(robot, d);
    CanMoveIff(grid, w, boxes, robot, d);
    var c := Pushed(grid, w, boxes, robot, d);
    if n in boxes {
      ChainShape(grid, w, boxes, n, d);
    } else {
      assert Offset(n, d, 0) == n;
    }
    assert ChainLaidOut(grid, w, boxes, n, d, c);
    ShiftedDistinct(grid, w, boxes, n, d, c);
    ShiftedValid(grid, w, boxes, n, d, c);
  }

  /** The inner loop of `initializePositions`: the row's `O` cells are appended to the
      boxes in column order and its last `@` replaces the robot. */
  method ScanRow(row: string, y: int, w: nat, boxes: seq<Pos>, robot: Option<Pos>)
    returns (found: seq<Pos>, last: Option<Pos>)
    ensures found == boxes + RowBoxes(row, y, w) && last == RowRobot(row, y, w, robot)
  {
    found, last := boxes, robot;
    var x := 0;
    while x < w
      invariant 0 <= x <= w
      invariant found == boxes + RowBoxes(row, y, x) && last == RowRobot(row, y, x, robot)
    {
      if x < |row| && row[x] == 'O' {
        found := found + [Pos(x, y)];
      } else if x < |row| && row[x] == '@' {
        last := Some(Pos(x, y));
      }
      x := x + 1;
    }
  }

  /** The `Warehouse` class: the map text and its dimensions are fixed at construction;
      `robot` and `boxes` change with every move. `robot` is `None` while no `@` was
      seen (the JavaScript field is then `undefined`). */
  class Warehouse {
    const grid: seq<string>
    const width: nat
    const height: nat
    var robot: Option<Pos>
    var boxes: seq<Pos>

    ghost predicate Valid()
      reads this
    {
      height == |grid| && AllInBounds(boxes, width, height)
      && (robot.Some? ==> Consistent(grid, width, boxes, robot.value))
    }

    /** The constructor and `initializePositions`: every `O` becomes a box, in row-major
        order, and the last `@` is the robot. An empty map throws in JavaScript
        (`input[0].length`), so it is not accepted here. */
    constructor (input: seq<string>)
      requires |input| > 0
      ensures grid == input && width == |input[0]| && height == |input|
      ensures boxes == GridBoxes(input, width, height) && robot == GridRobot(input, width, height)
      ensures Valid()
    {
      grid := input;
      width := |input[0]|;
      height := |input|;
      var w := |input[0]|;
      var found: seq<Pos> := [];
      var last: Option<Pos> := None;
      var y := 0;
      while y < |input|
        invariant 0 <= y <= |input|
        invariant found == GridBoxes(input, w, y) && last == GridRobot(input, w, y)
      {
        found, last := ScanRow(input[y], y, w, found, last);
        y := y + 1;
      }
      boxes := found;
      robot := last;
      new;
      InitialConsistent(input, w);
    }

    /** `getBoxChain`: follows the boxes from `start`; an invalid cell after a box
        empties the whole chain. */
    method GetBoxChain(start: Pos, d: char) returns (chain: seq<nat>)
      requires Valid() && IsDirection(d)
      ensures chain == ChainOrEmpty(Chain(grid, width, boxes, start, d))
    {
      chain := [];
      var cur := start;
      assert forall c: seq<nat> :: [] + c == c;
      while true
        invariant Chain(grid, width, boxes, start, d) ==
          (match Chain(grid, width, boxes, cur, d) case None => None case Some(c) => Some(chain + c))
        decreases Room(cur, d, width, height) + 1
      {
        var i := BoxAt(boxes, cur);
        if i == -1 {
          assert chain + [] == chain;
          return;
        }
        chain := chain + [i as nat];
        cur := Next(cur, d);
        if !IsValidPosition(grid, width, cur) {
          return [];
        }
        assert forall c :: chain[..|chain| - 1] + ([i as nat] + c) == chain + c;
      }
    }

    /** `canMove`. */
    method CanMoveNow(d: char) returns (ok: bool)
      requires Valid() && IsDirection(d) && robot.Some?
      ensures ok == CanMove(grid, width, boxes, robot.value, d)
    {
      var n := Next(robot.value, d);
      if !IsValidPosition(grid, width, n) {
        return false;
      }
      if BoxAt(boxes, n) == -1 {
        return true;
      }
      var chain := GetBoxChain(n, d);
      ok := |chain| != 0;
    }

    /** `move` (reached through `executeMove`): a move `canMove` refuses changes nothing;
        otherwise every box of the chain and the robot step once in direction `d`, and all
        other boxes stay. A direction outside `^v<>` and an `undefined` robot make
        `getNextPosition` or `isValidPosition` throw a `TypeError`. */
    method Move(d: char) returns (r: Result<bool>)
      requires Valid()
      modifies this
      ensures Valid()
      ensures r.Err? <==> (old(robot).None? || !IsDirection(d))
      ensures r.Err? ==> r.message == TypeError
      ensures r.Err? || r == Ok(false) ==> boxes == old(boxes) && robot == old(robot)
      ensures r.Ok? ==> r.value == CanMove(grid, width, old(boxes), old(robot).value, d)
      ensures r == Ok(true) ==>
        robot == Some(Next(old(robot).value, d))
        && boxes == MovedBoxes(grid, width, old(boxes), old(robot).value, d)
    {
      if robot.None? || !IsDirection(d) {
        return Err(TypeError);
      }
      var ok := CanMoveNow(d);
      if !ok {
        return Ok(false);
      }
      var next := Next(robot.value, d);
      var boxIndex := BoxAt(boxes, next);
      var chain: seq<nat> := [];
      if boxIndex != -1 {
        chain := GetBoxChain(next, d);
        CanMoveIff(grid, width, boxes, robot.value, d);
        ChainShape(grid, width, boxes, next, d);
        ChainDistinct(grid, width, boxes, next, d);
      }
      MoveKeepsConsistent(grid, width, boxes, robot.value, d);
      ShiftChain(chain, d);
      robot := Some(next);
      r := Ok(true);
    }

    /** The loop of `move` that walks the chain from its last box to its first and steps
        each one. */
    method ShiftChain(chain: seq<nat>, d: char)
      requires IsDirection(d)
      requires forall k :: 0 <= k < |chain| ==> chain[k] < |boxes|
      requires forall j, k :: 0 <= j < k < |chain| ==> chain[j] != chain[k]
      modifies this
      ensures boxes == Shifted(old(boxes), chain, d) && robot == old(robot)
    {
      ghost var before := boxes;
      var i := |chain|;
      while i > 0
        invariant 0 <= i <= |chain| && |boxes| == |before|
        invariant boxes == Shifted(before, chain[i..], d) && robot == old(robot)
      {
        i := i - 1;
        var b := chain[i];
        assert b !in chain[i + 1..];
        boxes := boxes[b := Next(boxes[b], d)];
        assert forall j :: j in chain[i..] <==> j == b || j in chain[i + 1..];
      }
      assert chain[0..] == chain;
    }

    /** `calculateGPS`: the sum of `100 y + x` over the box list. */
    method CalculateGps() returns (total: int)
      ensures total == Gps(boxes)
    {
      total := 0;
      var i := 0;
      while i < |boxes|
        invariant 0 <= i <= |boxes| && total == Gps(boxes[..i])
      {
        assert boxes[..i + 1][..i] == boxes[..i];
        total := total + 100 * boxes[i].y + boxes[i].x;
        i := i + 1;
      }
      assert boxes[..i] == boxes;
    }
  }

  /** The scanned positions satisfy the warehouse invariant. */
  lemma InitialConsistent(grid: seq<string>, w: nat)
    ensures var boxes := GridBoxes(grid, w, |grid|);
      AllInBounds(boxes, w, |grid|)
      && (GridRobot(grid, w, |grid|).Some? ==> Consistent(grid, w, boxes, GridRobot(grid, w, |grid|).value))
  {
    var boxes := GridBoxes(grid, w, |grid|);
    forall i | 0 <= i < |boxes| ensures IsValidPosition(grid, w, boxes[i]) {
      GridBoxesCells(grid, w, |grid|, i);
    }
    GridBoxesDistinct(grid, w, |grid|);
    if GridRobot(grid, w, |grid|).Some? {
      GridRobotCell(grid, w, |grid|);
      var r := GridRobot(grid, w, |grid|).value;
      if r in boxes {
        var i :| 0 <= i < |boxes| && boxes[i] == r;
        GridBoxesCells(grid, w, |grid|, i);
      }
    }
  }

  /** Every character of the line is whitespace; `BlankTrim` shows this is
      `line.trim() === ''`. */
  predicate Blank(line: string) {
    forall k :: 0 <= k < |line| ==> IsJsWhitespace(line[k])
  }

  lemma BlankTrim(line: string)
    ensures Blank(line) <==> Trim(line) == ""
  {
  }

  /** The index of the first line whose trimmed text is empty, or -1. */
  function FirstBlank(lines: seq<string>): (i: int)
    ensures -1 <= i < |lines|
    ensures i >= 0 ==> Blank(lines[i]) && forall j :: 0 <= j < i ==> !Blank(lines[j])
    ensures i == -1 ==> forall j :: 0 <= j < |lines| ==> !Blank(lines[j])
  {
    FirstBlankBefore(lines, |lines|)
  }

  /** The first blank line among the first `n`, or -1. */
  function FirstBlankBefore(lines: seq<string>, n: nat): (i: int)
    requires n <= |lines|
    ensures -1 <= i < n
    ensures i >= 0 ==> Blank(lines[i]) && forall j :: 0 <= j < i ==> !Blank(lines[j])
    ensures i == -1 ==> forall j :: 0 <= j < n ==> !Blank(lines[j])
  {
    if n == 0 then -1
    else
      var i := FirstBlankBefore(lines, n - 1);
      if i != -1 then i
      else if Blank(lines[n - 1]) then n - 1
      else -1
  }

  /** `input.slice(0, end)` for an end of -1 or more. */
  function SliceTo<T>(s: seq<T>, end: int): (r: seq<T>)
    requires end >= -1
    ensures end >= 0 ==> r == s[..if end <= |s| then end else |s|]
    ensures end == -1 ==> r == if s == [] then [] else s[..|s| - 1]
  {
    if end == -1 then (if s == [] then [] else s[..|s| - 1])
    else if end <= |s| then s[..end] else s
  }

  /** `parseInput`: the lines before the first blank line are the map and the line after
      it holds the moves (`undefined`, here `None`, when there is no such line). Without a
      blank line the map is every line but the last and the moves are the first line. */
  function ParseInput(lines: seq<string>): (r: (seq<string>, Option<string>))
    ensures var i := FirstBlank(lines);
      i >= 0 ==> r.0 == lines[..i] && r.1 == (if i + 1 < |lines| then Some(lines[i + 1]) else None)
  {
    var i := FirstBlank(lines);
    (SliceTo(lines, i), if 0 <= i + 1 < |lines| then Some(lines[i + 1]) else None)
  }

  /** The message of the `TypeError` JavaScript throws on an `undefined` value. */
  const TypeError := "TypeError: Cannot read properties of undefined"

  /** The part of a warehouse that moves change. */
  datatype State = State(boxes: seq<Pos>, robot: Option<Pos>)

  /** Every character is one of `^v<>`. */
  predicate AllDirections(moves: string) {
    forall k :: 0 <= k < |moves| ==> IsDirection(moves[k])
  }

  /** The state `initializePositions` builds from a map. */
  function Initial(grid: seq<string>): (s: State)
    requires |grid| > 0
    ensures AllInBounds(s.boxes, |grid[0]|, |grid|)
    ensures s.robot.Some? ==> Consistent(grid, |grid[0]|, s.boxes, s.robot.value)
  {
    InitialConsistent(grid, |grid[0]|);
    State(GridBoxes(grid, |grid[0]|, |grid|), GridRobot(grid, |grid[0]|, |grid|))
  }

  /** Play the move characters in order: a refused move changes nothing, an allowed one
      steps the robot and its chain, and a character outside `^v<>` or a missing robot
      throws. Every state reached keeps the warehouse invariant and the number of boxes. */
  function Play(grid: seq<string>, w: int, s: State, moves: string): (r: Result<State>)
    requires AllInBounds(s.boxes, w, |grid|)
    requires s.robot.Some? ==> Consistent(grid, w, s.boxes, s.robot.value)
    ensures r.Ok? ==> |r.value.boxes| == |s.boxes| && AllInBounds(r.value.boxes, w, |grid|)
    ensures r.Ok? && r.value.robot.Some? ==> Consistent(grid, w, r.value.boxes, r.value.robot.value)
    ensures r.Err? <==> |moves| > 0 && (s.robot.None? || !AllDirections(moves))
    decreases |moves|
  {
    if moves == [] then Ok(s)
    else if s.robot.None? || !IsDirection(moves[0]) then
      Err(TypeError)
    else
      var next := Play(grid, w, s, moves[1..]);
      assert AllDirections(moves) <==> AllDirections(moves[1..]);
      var robot := s.robot.value;
      if CanMove(grid, w, s.boxes, robot, moves[0]) then
        MoveKeepsConsistent(grid, w, s.boxes, robot, moves[0]);
        Play(grid, w, State(MovedBoxes(grid, w, s.boxes, robot, moves[0]), Some(Next(robot, moves[0]))), moves[1..])
      else
        Play(grid, w, s, moves[1..])
  }

  /** The answer of part 1 for the input lines: parse, play, sum the box GPS values. */
  function Solve(lines: seq<string>): Result<int> {
    var parsed := ParseInput(lines);
    if |parsed.0| == 0 || parsed.1.None? then Err(TypeError)
    else
      match Play(parsed.0, |parsed.0[0]|, Initial(parsed.0), parsed.1.value)
      case Err(e) => Err(e)
      case Ok(s) => Ok(Gps(s.boxes))
  }

  /** `solve_pt1`: build the warehouse, play every move character and sum the box GPS
      coordinates. An empty map, a missing moves line and a character outside `^v<>`
      make the JavaScript throw. */
  method SolvePart1(lines: seq<string>) returns (r: Result<int>)
    ensures r == Solve(lines)
  {
    var parsed := ParseInput(lines);
    var mapLines := parsed.0;
    if |mapLines| == 0 || parsed.1.None? {
      return Err(TypeError);
    }
    var moves := parsed.1.value;
    var w := new Warehouse(mapLines);
    ghost var width := |mapLines[0]|;
    var i := 0;
    while i < |moves|
      invariant 0 <= i <= |moves| && w.Valid() && w.grid == mapLines && w.width == width
      invariant Play(mapLines, width, Initial(mapLines), moves) == Play(mapLines, width, State(w.boxes, w.robot), moves[i..])
    {
      var moved := w.Move(moves[i]);
      if moved.Err? {
        return Err(moved.message);
      }
      assert moves[i..][1..] == moves[i + 1..];
      i := i + 1;
    }
    var total := w.CalculateGps();
    return Ok(total);
  }
}
