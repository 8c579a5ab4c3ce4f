/** Day 18: bytes fall onto a square memory grid, and a breadth-first search looks for the
    shortest walk from the top-left corner to the bottom-right one. The grid is a mutable
    two-dimensional array that the byte-marking loops write into; the search only reads it. */
module Day18Bytes {
  import opened Wrappers
  import opened JsText

  datatype Point = Point(x: int, y: int)

  /** A queued cell with the number of steps the search took to reach it. */
  datatype QueueItem = QueueItem(point: Point, steps: nat)

  /** The grid size and how many bytes part 1 lets fall. */
  datatype Setup = Setup(gridSize: nat, bytesToProcess: nat)

  /** The puzzle input: a 71 by 71 grid with the first 1024 bytes fallen. */
  const Full := Setup(71, 1024)

  /** Sample mode: a 7 by 7 grid with the first 12 bytes fallen. */
  const Sample := Setup(7, 12)

  const Origin := Point(0, 0)

  /** The movements in the order the search tries them: down, up, right, left. */
  const Movements: seq<(int, int)> := [(0, 1), (0, -1), (1, 0), (-1, 0)]

  function Step(p: Point, i: nat): Point
    requires i < 4
  {
    Point(p.x + Movements[i].0, p.y + Movements[i].1)
  }

  /** The cell from which movement `i` leads to `p`. */
  function Back(p: Point, i: nat): Point
    requires i < 4
  {
    Point(p.x - Movements[i].0, p.y - Movements[i].1)
  }

  function Abs(v: int): nat { if v < 0 then -v else v }

  /** The Manhattan distance between two cells. */
  function Distance(p: Point, q: Point): nat {
    Abs(q.x - p.x) + Abs(q.y - p.y)
  }

  /** Every movement goes to a neighbouring cell. */
  lemma StepDistance(p: Point, i: nat)
    requires i < 4
    ensures Distance(p, Step(p, i)) == 1
  {
  }

  /** The four movements lead to four different cells. */
  lemma StepsDiffer(p: Point, i: nat, j: nat)
    requires i < 4 && j < 4 && i != j
    ensures Step(p, i) != Step(p, j)
  {
    assert Movements[i] != Movements[j];
  }

  // ---------------------------------------------------------------------------------
  // The grid

  /** `createGrid`: a size by size grid of `.`. */
  method CreateGrid(size: nat) returns (grid: array2<char>)
    ensures fresh(grid) && grid.Length0 == size
    ensures Shows(grid, {})
  {
    grid := new char[size, size]((y, x) => '.');
  }

  /** `isValidMove`: both coordinates lie in `[0, grid.length)` and the cell is `.`; a column
      past the end of a row reads `undefined`, which is not `.`. */
  predicate IsValidMove(x: int, y: int, grid: array2<char>)
    reads grid
  {
    0 <= x < grid.Length0 && 0 <= y < grid.Length0 && x < grid.Length1 && grid[y, x] == '.'
  }

  /** The cells a walk may enter, and the length of the grid the search takes its target
      from. */
  datatype Board = Board(size: int, open: set<Point>)

  function Target(b: Board): Point {
    Point(b.size - 1, b.size - 1)
  }

  /** The board the search sees in a grid: exactly the cells `isValidMove` accepts. */
  ghost function BoardOf(grid: array2<char>): (b: Board)
    reads grid
    ensures b.size == grid.Length0
    ensures forall p :: p in b.open <==> IsValidMove(p.x, p.y, grid)
  {
    var open := set y, x | 0 <= y < grid.Length0 && 0 <= x < grid.Length0 && x < grid.Length1
      && grid[y, x] == '.' :: Point(x, y);
    assert forall p: Point :: IsValidMove(p.x, p.y, grid) ==> p == Point(p.x, p.y) && p in open;
    Board(grid.Length0, open)
  }

  /** `b` is the board whose open cells are those `isValidMove` accepts in `grid`. */
  ghost predicate SeenAs(grid: array2<char>, b: Board)
    reads grid
  {
    b.size == grid.Length0 && forall p :: p in b.open <==> IsValidMove(p.x, p.y, grid)
  }

  /** An n by n grid with the given cells corrupted. */
  ghost function Walled(n: nat, walls: set<Point>): (b: Board)
    ensures b.size == n
    ensures forall p :: p in b.open <==> 0 <= p.x < n && 0 <= p.y < n && p !in walls
  {
    var open := set y, x | 0 <= y < n && 0 <= x < n && Point(x, y) !in walls :: Point(x, y);
    assert forall p: Point :: 0 <= p.x < n && 0 <= p.y < n && p !in walls ==> p == Point(p.x, p.y) && p in open;
    Board(n, open)
  }

  /** The grid is square and holds `#` exactly on the walls and `.` everywhere else. */
  ghost predicate Shows(grid: array2<char>, walls: set<Point>)
    reads grid
  {
    grid.Length0 == grid.Length1 &&
    forall y, x :: 0 <= y < grid.Length0 && 0 <= x < grid.Length1 ==>
      grid[y, x] == (if Point(x, y) in walls then '#' else '.')
  }

  /** A grid that shows a set of walls is searched as that walled board. */
  lemma ShownBoard(grid: array2<char>, walls: set<Point>)
    requires Shows(grid, walls)
    ensures BoardOf(grid) == Walled(grid.Length0, walls)
  {
    var b, w := BoardOf(grid), Walled(grid.Length0, walls);
    forall p ensures p in b.open <==> p in w.open {
      if 0 <= p.x < grid.Length0 && 0 <= p.y < grid.Length0 {
        assert grid[p.y, p.x] == (if Point(p.x, p.y) in walls then '#' else '.');
      }
    }
    assert b.open == w.open;
  }

  // ---------------------------------------------------------------------------------
  // Walks

  /** `p` can be reached from the top-left corner in at most `k` steps, each into an open
      cell. The corner itself is where every walk starts, open or not. */
  ghost predicate Reach(b: Board, p: Point, k: nat)
    decreases k
  {
    p == Origin ||
    (k > 0 && p in b.open && exists i :: 0 <= i < 4 && Reach(b, Back(p, i), k - 1))
  }

  /** The target can be reached at all. */
  ghost predicate Connected(b: Board) {
    exists k: nat :: Reach(b, Target(b), k)
  }

  /** `d` is the length of a shortest walk to the target. */
  ghost predicate Shortest(b: Board, d: nat) {
    Reach(b, Target(b), d) && forall k: nat :: k < d ==> !Reach(b, Target(b), k)
  }

  lemma ReachVia(b: Board, p: Point, k: nat, i: nat)
    requires i < 4 && k > 0 && p in b.open && Reach(b, Back(p, i), k - 1)
    ensures Reach(b, p, k)
  {
  }

  /** One more step into an open cell extends a walk. */
  lemma ReachStep(b: Board, q: Point, k: nat, i: nat)
    requires i < 4 && Reach(b, q, k) && Step(q, i) in b.open
    ensures Reach(b, Step(q, i), k + 1)
  {
    assert Back(Step(q, i), i) == q;
    ReachVia(b, Step(q, i), k + 1, i);
  }

  /** A walk to a cell other than the corner ends with a step from a neighbour. */
  lemma ReachBack(b: Board, p: Point, k: nat)
    requires Reach(b, p, k) && p != Origin
    ensures k > 0 && p in b.open
    ensures exists i :: 0 <= i < 4 && Reach(b, Back(p, i), k - 1)
  {
  }

  /** A cell within `k` steps is within any larger number of steps. */
  lemma {:induction false} ReachMono(b: Board, p: Point, k: nat, m: nat)
    requires k <= m
    ensures Reach(b, p, k) ==> Reach(b, p, m)
    decreases k
  {
    if Reach(b, p, k) && p != Origin {
      var i :| 0 <= i < 4 && Reach(b, Back(p, i), k - 1);
      ReachMono(b, Back(p, i), k - 1, m - 1);
      ReachVia(b, p, m, i);
    }
  }

  /** No walk is shorter than the Manhattan distance it covers. */
  lemma {:induction false} ReachFar(b: Board, p: Point, k: nat)
    requires Reach(b, p, k)
    ensures Distance(Origin, p) <= k
    decreases k
  {
    if p != Origin {
      ReachBack(b, p, k);
      var i :| 0 <= i < 4 && Reach(b, Back(p, i), k - 1);
      ReachFar(b, Back(p, i), k - 1);
      StepDistance(Back(p, i), i);
    }
  }

  /** Every cell of the n by n square is open. */
  ghost predicate AllOpen(b: Board, n: nat) {
    forall p: Point :: 0 <= p.x < n && 0 <= p.y < n ==> p in b.open
  }

  /** Along the top row of a clear grid, cell x is x steps away. */
  lemma {:induction false} ClearRow(b: Board, n: nat, x: nat)
    requires AllOpen(b, n) && x < n
    ensures Reach(b, Point(x, 0), x)
  {
    if x > 0 {
      ClearRow(b, n, x - 1);
      ReachRight(b, x - 1, 0, x - 1);
    }
  }

  lemma ReachDown(b: Board, x: int, y: int, k: nat)
    requires Reach(b, Point(x, y), k) && Point(x, y + 1) in b.open
    ensures Reach(b, Point(x, y + 1), k + 1)
  {
    assert Back(Point(x, y + 1), 0) == Point(x, y);
    ReachVia(b, Point(x, y + 1), k + 1, 0);
  }

  lemma ReachRight(b: Board, x: int, y: int, k: nat)
    requires Reach(b, Point(x, y), k) && Point(x + 1, y) in b.open
    ensures Reach(b, Point(x + 1, y), k + 1)
  {
    assert Back(Point(x + 1, y), 2) == Point(x, y);
    ReachVia(b, Point(x + 1, y), k + 1, 2);
  }

  /** Down the last column of a clear grid, row y is n - 1 + y steps away. */
  lemma {:induction false} ClearColumn(b: Board, n: nat, y: nat)
    requires AllOpen(b, n) && 0 < n && y < n
    ensures Reach(b, Point(n - 1, y), n - 1 + y)
  {
    if y == 0 {
      ClearRow(b, n, n - 1);
    } else {
      ClearColumn(b, n, y - 1);
      ReachDown(b, n - 1, y - 1, n - 1 + y - 1);
    }
  }

  /** On a grid with no corrupted byte the shortest walk is 2(n - 1) steps. */
  lemma ClearGridShortest(n: nat)
    requires n > 0
    ensures Shortest(Walled(n, {}), 2 * (n - 1))
  {
    var b := Walled(n, {});
    var t := Target(b);
    assert t == Point(n - 1, n - 1);
    ClearColumn(b, n, n - 1);
    assert Distance(Origin, t) == 2 * (n - 1);
    forall k: nat | Reach(b, t, k) ensures 2 * (n - 1) <= k {
      ReachFar(b, t, k);
    }
  }

  /** More walls never open a walk. */
  lemma {:induction false} WallsBlock(n: nat, fewer: set<Point>, more: set<Point>, p: Point, k: nat)
    requires fewer <= more && Reach(Walled(n, more), p, k)
    ensures Reach(Walled(n, fewer), p, k)
    decreases k
  {
    if p != Origin {
      ReachBack(Walled(n, more), p, k);
      var i :| 0 <= i < 4 && Reach(Walled(n, more), Back(p, i), k - 1);
      WallsBlock(n, fewer, more, Back(p, i), k - 1);
      ReachVia(Walled(n, fewer), p, k, i);
    }
  }

  // ---------------------------------------------------------------------------------
  // The breadth-first search

  function Queued(queue: seq<QueueItem>): set<Point> {
    set item | item in queue :: item.point
  }

  lemma QueuedAppend(a: seq<QueueItem>, c: seq<QueueItem>)
    ensures Queued(a + c) == Queued(a) + Queued(c)
  {
    forall p | p in Queued(a + c) ensures p in Queued(a) + Queued(c) {
      var item :| item in a + c && item.point == p;
    }
  }

  lemma QueuedAt(queue: seq<QueueItem>, j: nat)
    requires j < |queue|
    ensures queue[j].point in Queued(queue)
  {
    assert queue[j] in queue;
  }

  predicate DistinctPoints(queue: seq<QueueItem>) {
    forall i, j :: 0 <= i < j < |queue| ==> queue[i].point != queue[j].point
  }

  /** Movement `m` from `current` leads to an open cell not yet visited. */
  ghost predicate Wanted(b: Board, visited: set<Point>, current: QueueItem, m: nat)
    requires m < 4
  {
    Step(current.point, m) in b.open && Step(current.point, m) !in visited
  }

  /** The items the movement loop appends for `current` when trying the first `n`
      movements against the visited set it started with. */
  function Pushes(b: Board, visited: set<Point>, current: QueueItem, n: nat): (r: seq<QueueItem>)
    requires n <= 4
    ensures |r| <= n
    ensures forall j :: 0 <= j < |r| ==>
      r[j].steps == current.steps + 1 && r[j].point in b.open && r[j].point !in visited
  {
    if n == 0 then []
    else
      var q := Step(current.point, n - 1);
      Pushes(b, visited, current, n - 1) +
      (if q in b.open && q !in visited then [QueueItem(q, current.steps + 1)] else [])
  }

  /** Every pushed cell is the target of a tried movement that was open and unvisited. */
  lemma {:induction false} PushedFrom(b: Board, visited: set<Point>, current: QueueItem, n: nat, q: Point)
    requires n <= 4 && q in Queued(Pushes(b, visited, current, n))
    ensures exists m :: 0 <= m < n && Wanted(b, visited, current, m) && q == Step(current.point, m)
  {
    var c := Step(current.point, n - 1);
    var r0 := Pushes(b, visited, current, n - 1);
    var add := if c in b.open && c !in visited then [QueueItem(c, current.steps + 1)] else [];
    QueuedAppend(r0, add);
    if q in Queued(r0) {
      PushedFrom(b, visited, current, n - 1, q);
    } else {
      assert q == c && Wanted(b, visited, current, n - 1);
    }
  }

  /** Every tried movement to an open, unvisited cell is pushed. */
  lemma {:induction false} PushedAll(b: Board, visited: set<Point>, current: QueueItem, n: nat, m: nat)
    requires m < n <= 4 && Wanted(b, visited, current, m)
    ensures Step(current.point, m) in Queued(Pushes(b, visited, current, n))
  {
    var c := Step(current.point, n - 1);
    var r0 := Pushes(b, visited, current, n - 1);
    var add := if c in b.open && c !in visited then [QueueItem(c, current.steps + 1)] else [];
    QueuedAppend(r0, add);
    if m < n - 1 {
      PushedAll(b, visited, current, n - 1, m);
    } else {
      QueuedAt(add, 0);
    }
  }

  /** Trying one more movement appends at most its one cell. */
  lemma PushesNext(b: Board, visited: set<Point>, current: QueueItem, n: nat)
    requires n < 4
    ensures Pushes(b, visited, current, n + 1) == Pushes(b, visited, current, n) +
      if Wanted(b, visited, current, n) then [QueueItem(Step(current.point, n), current.steps + 1)] else []
  {
  }

  /** One turn of the movement loop: the cell is pushed exactly when it is wanted, which
      the visited set so far decides as the starting one would. */
  lemma ExpandTurn(b: Board, visited0: set<Point>, current: QueueItem, i: nat, queue0: seq<QueueItem>)
    requires i < 4
    ensures var next := Step(current.point, i);
      var pushed := Pushes(b, visited0, current, i);
      (next in b.open && next !in visited0 + Queued(pushed) <==> Wanted(b, visited0, current, i)) &&
      (Wanted(b, visited0, current, i) ==>
        queue0 + pushed + [QueueItem(next, current.steps + 1)] == queue0 + Pushes(b, visited0, current, i + 1) &&
        visited0 + Queued(pushed) + {next} == visited0 + Queued(Pushes(b, visited0, current, i + 1))) &&
      (!Wanted(b, visited0, current, i) ==> pushed == Pushes(b, visited0, current, i + 1))
  {
    var next := Step(current.point, i);
    var pushed := Pushes(b, visited0, current, i);
    var item := QueueItem(next, current.steps + 1);
    PushedNotYet(b, visited0, current, i, i);
    PushesNext(b, visited0, current, i);
    QueuedAppend(pushed, [item]);
    assert Queued([item]) == {next};
    assert queue0 + pushed + [item] == queue0 + (pushed + [item]);
  }

  /** A movement not yet tried has pushed nothing. */
  lemma PushedNotYet(b: Board, visited: set<Point>, current: QueueItem, n: nat, m: nat)
    requires n <= m < 4
    ensures Step(current.point, m) !in Queued(Pushes(b, visited, current, n))
  {
    if Step(current.point, m) in Queued(Pushes(b, visited, current, n)) {
      PushedFrom(b, visited, current, n, Step(current.point, m));
      var m' :| 0 <= m' < n && Wanted(b, visited, current, m') && Step(current.point, m) == Step(current.point, m');
      StepsDiffer(current.point, m, m');
    }
  }

  /** The movement loop never pushes a cell twice. */
  lemma {:induction false} PushesDistinct(b: Board, visited: set<Point>, current: QueueItem, n: nat)
    requires n <= 4
    ensures DistinctPoints(Pushes(b, visited, current, n))
  {
    if n > 0 {
      var r0 := Pushes(b, visited, current, n - 1);
      var c := Step(current.point, n - 1);
      PushesDistinct(b, visited, current, n - 1);
      PushesNext(b, visited, current, n - 1);
      if Wanted(b, visited, current, n - 1) {
        PushedNotYet(b, visited, current, n - 1, n - 1);
        forall j | 0 <= j < |r0| ensures r0[j].point != c {
          QueuedAt(r0, j);
        }
        DistinctSnoc(r0, QueueItem(c, current.steps + 1));
      }
    }
  }

  lemma DistinctSnoc(items: seq<QueueItem>, last: QueueItem)
    requires DistinctPoints(items) && forall j :: 0 <= j < |items| ==> items[j].point != last.point
    ensures DistinctPoints(items + [last])
  {
  }


  /** Every queued item records a walk of its length to its cell. */
  ghost predicate Sound(b: Board, queue: seq<QueueItem>) {
    forall j :: 0 <= j < |queue| ==> Reach(b, queue[j].point, queue[j].steps)
  }

  /** No queued cell can be reached in fewer steps than its item records. */
  ghost predicate Optimal(b: Board, queue: seq<QueueItem>) {
    forall j :: 0 <= j < |queue| && queue[j].steps > 0 ==> !Reach(b, queue[j].point, queue[j].steps - 1)
  }

  /** The queue's step counts never decrease and span at most one level. */
  predicate Levels(queue: seq<QueueItem>) {
    forall i, j :: 0 <= i <= j < |queue| ==> queue[i].steps <= queue[j].steps <= queue[i].steps + 1
  }

  /** The visited set is every cell ever queued, each queued once, all open but the corner. */
  ghost predicate Ledger(b: Board, popped: seq<QueueItem>, queue: seq<QueueItem>, visited: set<Point>) {
    visited == Queued(popped + queue) && DistinctPoints(popped + queue) && Origin in visited &&
    forall p :: p in visited ==> p == Origin || p in b.open
  }

  /** Every open neighbour of a dequeued cell has been visited. */
  ghost predicate Expanded(b: Board, popped: seq<QueueItem>, visited: set<Point>) {
    forall p, i :: p in Queued(popped) && 0 <= i < 4 && Step(p, i) in b.open ==> Step(p, i) in visited
  }

  /** Every cell closer than the head of the queue has already been dequeued. */
  ghost predicate Complete(b: Board, popped: seq<QueueItem>, queue: seq<QueueItem>) {
    queue != [] ==> forall p, k: nat :: k < queue[0].steps && Reach(b, p, k) ==> p in Queued(popped)
  }

  ghost predicate Search(b: Board, popped: seq<QueueItem>, queue: seq<QueueItem>, visited: set<Point>) {
    Sound(b, queue) && Optimal(b, queue) && Levels(queue) && Ledger(b, popped, queue, visited) &&
    Expanded(b, popped, visited) && Complete(b, popped, queue) && Target(b) !in Queued(popped)
  }

  /** A cell as close as the head of the queue has been visited. */
  lemma ReachedVisited(b: Board, popped: seq<QueueItem>, queue: seq<QueueItem>, visited: set<Point>, q: Point)
    requires queue != [] && Complete(b, popped, queue) && Expanded(b, popped, visited) && Origin in visited
    ensures Reach(b, q, queue[0].steps) ==> q in visited
  {
    var s := queue[0].steps;
    if Reach(b, q, s) && q != Origin {
      ReachBack(b, q, s);
      var i :| 0 <= i < 4 && Reach(b, Back(q, i), s - 1);
      assert Back(q, i) in Queued(popped);
      assert Step(Back(q, i), i) == q;
    }
  }

  /** The pushed items are sound and optimal: one step past the head, and not closer. */
  lemma PushesSoundOptimal(b: Board, popped: seq<QueueItem>, queue: seq<QueueItem>, visited: set<Point>)
    requires queue != [] && Reach(b, queue[0].point, queue[0].steps)
    requires Complete(b, popped, queue) && Expanded(b, popped, visited) && Origin in visited
    ensures var pushes := Pushes(b, visited, queue[0], 4);
      Sound(b, pushes) && Optimal(b, pushes)
  {
    var cur := queue[0];
    var pushes := Pushes(b, visited, cur, 4);
    forall j | 0 <= j < |pushes|
      ensures Reach(b, pushes[j].point, pushes[j].steps)
      ensures !Reach(b, pushes[j].point, pushes[j].steps - 1)
    {
      QueuedAt(pushes, j);
      PushedFrom(b, visited, cur, 4, pushes[j].point);
      var i :| 0 <= i < 4 && Wanted(b, visited, cur, i) && pushes[j].point == Step(cur.point, i);
      ReachStep(b, cur.point, cur.steps, i);
      ReachedVisited(b, popped, queue, visited, pushes[j].point);
    }
  }

  lemma SoundAppend(b: Board, a: seq<QueueItem>, c: seq<QueueItem>)
    requires Sound(b, a) && Sound(b, c)
    ensures Sound(b, a + c)
  {
    forall j | 0 <= j < |a + c| ensures Reach(b, (a + c)[j].point, (a + c)[j].steps) {
      if j >= |a| {
        assert (a + c)[j] == c[j - |a|];
      }
    }
  }

  lemma OptimalAppend(b: Board, a: seq<QueueItem>, c: seq<QueueItem>)
    requires Optimal(b, a) && Optimal(b, c)
    ensures Optimal(b, a + c)
  {
    forall j | 0 <= j < |a + c| && (a + c)[j].steps > 0
      ensures !Reach(b, (a + c)[j].point, (a + c)[j].steps - 1)
    {
      if j >= |a| {
        assert (a + c)[j] == c[j - |a|];
      }
    }
  }

  /** Dequeuing the head and appending items one level deeper keeps the queue in levels. */
  lemma LevelsStep(queue: seq<QueueItem>, pushes: seq<QueueItem>)
    requires queue != [] && Levels(queue)
    requires forall j :: 0 <= j < |pushes| ==> pushes[j].steps == queue[0].steps + 1
    ensures Levels(queue[1..] + pushes)
  {
    var next := queue[1..] + pushes;
    forall i, j | 0 <= i <= j < |next| ensures next[i].steps <= next[j].steps <= next[i].steps + 1 {
      if i >= |queue| - 1 {
        assert next[i] == pushes[i - (|queue| - 1)] && next[j] == pushes[j - (|queue| - 1)];
      } else if j >= |queue| - 1 {
        assert next[i] == queue[i + 1] && next[j] == pushes[j - (|queue| - 1)];
        assert queue[0].steps <= queue[i + 1].steps <= queue[0].steps + 1;
      } else {
        assert next[i] == queue[i + 1] && next[j] == queue[j + 1];
      }
    }
  }

  lemma QueueStep(b: Board, popped: seq<QueueItem>, queue: seq<QueueItem>, visited: set<Point>)
    requires Search(b, popped, queue, visited) && queue != []
    ensures var pushes := Pushes(b, visited, queue[0], 4);
      Sound(b, queue[1..] + pushes) && Optimal(b, queue[1..] + pushes) && Levels(queue[1..] + pushes)
  {
    var pushes := Pushes(b, visited, queue[0], 4);
    PushesSoundOptimal(b, popped, queue, visited);
    SoundAppend(b, queue[1..], pushes);
    OptimalAppend(b, queue[1..], pushes);
    LevelsStep(queue, pushes);
  }

  lemma LedgerStep(b: Board, popped: seq<QueueItem>, queue: seq<QueueItem>, visited: set<Point>,
                   pushes: seq<QueueItem>)
    requires queue != [] && Ledger(b, popped, queue, visited) && DistinctPoints(pushes)
    requires forall j :: 0 <= j < |pushes| ==> pushes[j].point in b.open && pushes[j].point !in visited
    ensures Ledger(b, popped + [queue[0]], queue[1..] + pushes, visited + Queued(pushes))
  {
    var h := popped + queue;
    assert (popped + [queue[0]]) + (queue[1..] + pushes) == h + pushes;
    QueuedAppend(h, pushes);
    forall i, j | 0 <= i < j < |h + pushes| ensures (h + pushes)[i].point != (h + pushes)[j].point {
      if j < |h| {
        assert (h + pushes)[i] == h[i] && (h + pushes)[j] == h[j];
      } else if i >= |h| {
        assert (h + pushes)[i] == pushes[i - |h|] && (h + pushes)[j] == pushes[j - |h|];
      } else {
        QueuedAt(h, i);
        assert (h + pushes)[i] == h[i] && (h + pushes)[j] == pushes[j - |h|];
      }
    }
    forall p | p in Queued(pushes) ensures p in b.open {
      var item :| item in pushes && item.point == p;
    }
  }

  lemma ExpandedStep(b: Board, popped: seq<QueueItem>, queue: seq<QueueItem>, visited: set<Point>)
    requires queue != [] && Expanded(b, popped, visited)
    ensures var pushes := Pushes(b, visited, queue[0], 4);
      Expanded(b, popped + [queue[0]], visited + Queued(pushes))
  {
    var cur := queue[0];
    var pushes := Pushes(b, visited, cur, 4);
    QueuedAppend(popped, [cur]);
    assert Queued([cur]) == {cur.point};
    forall p, i | p in Queued(popped + [cur]) && 0 <= i < 4 && Step(p, i) in b.open
      ensures Step(p, i) in visited + Queued(pushes)
    {
      if p !in Queued(popped) && Step(p, i) !in visited {
        PushedAll(b, visited, cur, 4, i);
      }
    }
  }

  /** A cell reached within the old head's level, but closer than the new head, is the old
      head or was dequeued before it. */
  lemma CloserDequeued(b: Board, popped: seq<QueueItem>, queue: seq<QueueItem>, visited: set<Point>,
                       next: seq<QueueItem>, p: Point, k: nat)
    requires queue != [] && Optimal(b, queue) && Complete(b, popped, queue)
    requires Expanded(b, popped, visited) && Origin in visited && visited == Queued(popped + queue)
    requires next != [] && Levels(next) && |queue| - 1 <= |next| && next[..|queue| - 1] == queue[1..]
    requires queue[0].steps <= k < next[0].steps && next[0].steps <= queue[0].steps + 1 && Reach(b, p, k)
    ensures p in Queued(popped) || p == queue[0].point
  {
    ReachedVisited(b, popped, queue, visited, p);
    forall j | 1 <= j < |queue| ensures queue[j].point != p {
      assert next[j - 1] == next[..|queue| - 1][j - 1] == queue[j];
      assert next[0].steps <= next[j - 1].steps;
      ReachMono(b, p, k, queue[j].steps - 1);
    }
    QueuedAppend(popped, queue);
    if p !in Queued(popped) {
      var item :| item in queue && item.point == p;
      var j :| 0 <= j < |queue| && queue[j] == item;
      assert j == 0;
    }
  }

  lemma CompleteStep(b: Board, popped: seq<QueueItem>, queue: seq<QueueItem>, visited: set<Point>,
                     pushes: seq<QueueItem>)
    requires queue != [] && Levels(queue) && Optimal(b, queue) && Complete(b, popped, queue)
    requires Expanded(b, popped, visited) && Origin in visited && visited == Queued(popped + queue)
    requires forall j :: 0 <= j < |pushes| ==> pushes[j].steps == queue[0].steps + 1
    ensures Complete(b, popped + [queue[0]], queue[1..] + pushes)
  {
    var cur := queue[0];
    var s := cur.steps;
    var next := queue[1..] + pushes;
    LevelsStep(queue, pushes);
    if next != [] {
      QueuedAppend(popped, [cur]);
      assert Queued([cur]) == {cur.point};
      assert next[0].steps <= s + 1 by {
        if |queue| > 1 {
          assert next[0] == queue[1];
        } else {
          assert next[0] == pushes[0];
        }
      }
      assert next[..|queue| - 1] == queue[1..];
      forall p, k: nat | k < next[0].steps && Reach(b, p, k) ensures p in Queued(popped + [cur]) {
        if k >= s {
          CloserDequeued(b, popped, queue, visited, next, p, k);
        }
      }
    }
  }

  /** One turn of the search loop keeps every invariant. */
  lemma SearchStep(b: Board, popped: seq<QueueItem>, queue: seq<QueueItem>, visited: set<Point>)
    requires Search(b, popped, queue, visited) && queue != [] && queue[0].point != Target(b)
    ensures var pushes := Pushes(b, visited, queue[0], 4);
      Search(b, popped + [queue[0]], queue[1..] + pushes, visited + Queued(pushes))
  {
    var pushes := Pushes(b, visited, queue[0], 4);
    QueueStep(b, popped, queue, visited);
    PushesDistinct(b, visited, queue[0], 4);
    LedgerStep(b, popped, queue, visited, pushes);
    ExpandedStep(b, popped, queue, visited);
    CompleteStep(b, popped, queue, visited, pushes);
    TargetStep(b, popped, queue[0]);
  }

  lemma TargetStep(b: Board, popped: seq<QueueItem>, head: QueueItem)
    requires Target(b) !in Queued(popped) && head.point != Target(b)
    ensures Target(b) !in Queued(popped + [head])
  {
    QueuedAppend(popped, [head]);
    assert Queued([head]) == {head.point};
  }

  /** The head of the queue at the target gives the shortest walk. */
  lemma FoundTarget(b: Board, queue: seq<QueueItem>)
    requires queue != [] && Sound(b, queue) && Optimal(b, queue) && queue[0].point == Target(b)
    ensures Shortest(b, queue[0].steps)
  {
    var s := queue[0].steps;
    forall k: nat | k < s ensures !Reach(b, Target(b), k) {
      ReachMono(b, Target(b), k, s - 1);
    }
  }

  /** Once the queue runs dry, every reachable cell has been visited. */
  lemma {:induction false} Exhausted(b: Board, popped: seq<QueueItem>, visited: set<Point>, p: Point, k: nat)
    requires visited == Queued(popped) && Expanded(b, popped, visited) && Origin in visited
    ensures Reach(b, p, k) ==> p in visited
    decreases k
  {
    if Reach(b, p, k) && p != Origin {
      var i :| 0 <= i < 4 && Reach(b, Back(p, i), k - 1);
      Exhausted(b, popped, visited, Back(p, i), k - 1);
      assert Step(Back(p, i), i) == p;
    }
  }

  /** Visiting more of a finite set leaves fewer of it to visit. */
  lemma Shrinks<T>(all: set<T>, before: set<T>, after: set<T>)
    requires before <= after <= all && before != after
    ensures |all - after| < |all - before|
  {
    var x :| x in after && x !in before;
    var rest := all - before - {x};
    assert all - before == rest + {x} && x !in rest;
    assert |rest + {x}| == |rest| + 1;
    SubsetSize(all - after, rest);
  }

  lemma SubsetSize<T>(small: set<T>, large: set<T>)
    requires small <= large
    ensures |small| <= |large|
    decreases small
  {
    if small != {} {
      var x :| x in small;
      SubsetSize(small - {x}, large - {x});
    }
  }

  /** The movement loop of `findShortestPath`: each movement to a valid cell not yet visited
      marks the cell visited and queues it one step further on. */
  method Expand(grid: array2<char>, ghost b: Board, current: QueueItem, visited0: set<Point>, queue0: seq<QueueItem>)
    returns (visited: set<Point>, queue: seq<QueueItem>)
    requires SeenAs(grid, b)
    ensures queue == queue0 + Pushes(b, visited0, current, 4)
    ensures visited == visited0 + Queued(Pushes(b, visited0, current, 4))
  {
    visited, queue := visited0, queue0;
    for i := 0 to 4
      invariant queue == queue0 + Pushes(b, visited0, current, i)
      invariant visited == visited0 + Queued(Pushes(b, visited0, current, i))
    {
      var next := Step(current.point, i);
      ExpandTurn(b, visited0, current, i, queue0);
      assert IsValidMove(next.x, next.y, grid) <==> next in b.open;
      if IsValidMove(next.x, next.y, grid) && next !in visited {
        visited := visited + {next};
        queue := queue + [QueueItem(next, current.steps + 1)];
      }
    }
  }

  /** `findShortestPath`: breadth-first search from the top-left corner. A non-negative
      result is the length of a shortest walk to the bottom-right corner through `.` cells,
      and -1 means there is none. Every cell is queued at most once (`enqueued` lists the
      queued items in order). */
  method FindShortestPath(grid: array2<char>) returns (steps: int, ghost enqueued: seq<QueueItem>)
    ensures steps >= -1
    ensures steps >= 0 ==> Shortest(BoardOf(grid), steps)
    ensures steps == -1 ==> !Connected(BoardOf(grid))
    ensures DistinctPoints(enqueued)
    ensures forall j :: 0 <= j < |enqueued| ==> enqueued[j].point == Origin || enqueued[j].point in BoardOf(grid).open
  {
    ghost var b := BoardOf(grid);
    var target := Point(grid.Length0 - 1, grid.Length0 - 1);
    var queue := [QueueItem(Origin, 0)];
    var visited := {Origin};
    ghost var popped: seq<QueueItem> := [];
    SearchStarts(b);
    while queue != []
      invariant Search(b, popped, queue, visited)
      decreases |b.open + {Origin} - visited|, |queue|
    {
      var current := queue[0];
      if current.point == target {
        FoundTarget(b, queue);
        Enqueued(b, popped, queue, visited);
        steps, enqueued := current.steps, popped + queue;
        return;
      }
      SearchStep(b, popped, queue, visited);
      TurnShrinks(b, popped, queue, visited);
      visited, queue := Expand(grid, b, current, visited, queue[1..]);
      popped := popped + [current];
    }
    SearchFails(b, popped, visited);
    Enqueued(b, popped, [], visited);
    assert popped + [] == popped;
    steps, enqueued := -1, popped;
  }

  lemma SearchStarts(b: Board)
    ensures Search(b, [], [QueueItem(Origin, 0)], {Origin})
  {
    var queue := [QueueItem(Origin, 0)];
    assert [] + queue == queue;
    QueuedAt(queue, 0);
    assert Queued(queue) == {Origin};
  }

  /** A turn that pushes anything visits a cell it had not visited. */
  lemma TurnShrinks(b: Board, popped: seq<QueueItem>, queue: seq<QueueItem>, visited: set<Point>)
    requires queue != [] && Ledger(b, popped, queue, visited)
    ensures var pushes := Pushes(b, visited, queue[0], 4);
      pushes != [] ==> |b.open + {Origin} - (visited + Queued(pushes))| < |b.open + {Origin} - visited|
  {
    var pushes := Pushes(b, visited, queue[0], 4);
    if pushes != [] {
      QueuedAt(pushes, 0);
      Shrinks(b.open + {Origin}, visited, visited + Queued(pushes));
    }
  }

  /** With the queue empty and the target never dequeued, no walk reaches the target. */
  lemma SearchFails(b: Board, popped: seq<QueueItem>, visited: set<Point>)
    requires Search(b, popped, [], visited)
    ensures !Connected(b)
  {
    assert popped + [] == popped;
    forall k: nat ensures !Reach(b, Target(b), k) {
      Exhausted(b, popped, visited, Target(b), k);
    }
  }

  /** Everything queued so far is queued once, and is the corner or an open cell. */
  lemma Enqueued(b: Board, popped: seq<QueueItem>, queue: seq<QueueItem>, visited: set<Point>)
    requires Ledger(b, popped, queue, visited)
    ensures DistinctPoints(popped + queue)
    ensures forall j :: 0 <= j < |popped + queue| ==>
      (popped + queue)[j].point == Origin || (popped + queue)[j].point in b.open
  {
    forall j | 0 <= j < |popped + queue| ensures (popped + queue)[j].point in visited {
      QueuedAt(popped + queue, j);
    }
  }

  /** `pathExists`: the search finds some walk to the target. */
  method PathExists(grid: array2<char>) returns (exists_: bool)
    ensures exists_ <==> Connected(BoardOf(grid))
  {
    var steps, _ := FindShortestPath(grid);
    exists_ := steps != -1;
  }

  // ---------------------------------------------------------------------------------
  // Falling bytes

  /** What the marking loops do with one input line on an n by n grid. */
  datatype Mark = Ignored | Marked(x: int, y: int) | Throws

  /** `line.split(',').map(Number)` destructured as `[x, y]`; a missing `y` is `undefined`,
      which compares like NaN. */
  function Coordinates(line: string): (Option<int>, Option<int>) {
    var fields := Split(line, ",");
    (JsNumber(fields[0]), if |fields| > 1 then JsNumber(fields[1]) else None)
  }

  /** The guard `x < GRID_SIZE && y < GRID_SIZE` is false for NaN, `undefined` and values
      too large. Past it, `grid[y]` is undefined for a negative `y`, so the write throws a
      TypeError; a negative `x` writes a property that is no cell. */
  function Marking(n: nat, line: string): Mark {
    var (x, y) := Coordinates(line);
    if x.None? || y.None? || x.value >= n || y.value >= n then Ignored
    else if y.value < 0 then Throws
    else Marked(x.value, y.value)
  }

  /** What each line does, in order. */
  function Marks(n: nat, lines: seq<string>): (marks: seq<Mark>)
    ensures |marks| == |lines|
  {
    MapEach((line: string) => Marking(n, line), lines)
  }

  /** `f` applied to each element, in order. */
  function MapEach<T, U>(f: T -> U, s: seq<T>): (r: seq<U>)
    ensures |r| == |s|
    decreases |s|
  {
    if s == [] then [] else MapEach(f, s[..|s| - 1]) + [f(s[|s| - 1])]
  }

  /** Entry i of the map is `f` of element i. */
  lemma {:induction false} MapEachIndex<T, U>(f: T -> U, s: seq<T>, i: nat)
    requires i < |s|
    ensures MapEach(f, s)[i] == f(s[i])
    decreases |s|
  {
    var last := |s| - 1;
    if i < last {
      MapEachIndex(f, s[..last], i);
      assert s[..last][i] == s[i];
    }
  }

  /** Entry i of the marks is what line i does. */
  lemma MarksIndex(n: nat, lines: seq<string>, i: nat)
    requires i < |lines|
    ensures Marks(n, lines)[i] == Marking(n, lines[i])
  {
    MapEachIndex((line: string) => Marking(n, line), lines, i);
  }

  /** The cell a line corrupts, if any. */
  function Fallen(m: Mark): set<Point> {
    if m.Marked? && m.x >= 0 then {Point(m.x, m.y)} else {}
  }

  /** The cells that the marks corrupt. */
  function Walls(marks: seq<Mark>): set<Point>
    decreases |marks|
  {
    if marks == [] then {} else Walls(marks[..|marks| - 1]) + Fallen(marks[|marks| - 1])
  }

  /** Mark i adds the cell it corrupts. */
  lemma WallsNext(marks: seq<Mark>, i: nat)
    requires i < |marks|
    ensures Walls(marks[..i + 1]) == Walls(marks[..i]) + Fallen(marks[i])
  {
    assert marks[..i + 1][..i] == marks[..i];
  }

  /** A mark that lets the loop go on: not a throw, and in range when it marks. */
  predicate InRange(n: nat, m: Mark) {
    m != Throws && (m.Marked? ==> m.x < n && 0 <= m.y < n)
  }

  /** Every mark a line makes on an n by n grid has both coordinates below n and a
      non-negative row. */
  lemma MarkingRange(n: nat, line: string)
    ensures Marking(n, line) == Throws || InRange(n, Marking(n, line))
  {
  }

  /** A cell is a wall exactly when some line marks it with a non-negative column. */
  lemma WallsMarked(marks: seq<Mark>, p: Point)
    ensures p in Walls(marks) <==> p.x >= 0 && Marked(p.x, p.y) in marks
  {
    if p in Walls(marks) {
      WallMarker(marks, p);
    }
    if p.x >= 0 && Marked(p.x, p.y) in marks {
      MarkedWall(marks, p);
    }
  }

  /** Every wall was marked. */
  lemma {:induction false} WallMarker(marks: seq<Mark>, p: Point)
    requires p in Walls(marks)
    ensures p.x >= 0 && Marked(p.x, p.y) in marks
    decreases |marks|
  {
    var last := |marks| - 1;
    if p !in Fallen(marks[last]) {
      WallMarker(marks[..last], p);
      assert marks[..last] <= marks;
    }
  }

  /** Every mark with a non-negative column is a wall. */
  lemma {:induction false} MarkedWall(marks: seq<Mark>, p: Point)
    requires p.x >= 0 && Marked(p.x, p.y) in marks
    ensures p in Walls(marks)
    decreases |marks|
  {
    var last := |marks| - 1;
    if marks[last] != Marked(p.x, p.y) {
      assert marks == marks[..last] + [marks[last]];
      MarkedWall(marks[..last], p);
    }
  }

  /** Walls lie on the grid when every mark is in range. */
  lemma {:induction false} WallsInside(n: nat, marks: seq<Mark>, p: Point)
    requires forall k :: 0 <= k < |marks| ==> InRange(n, marks[k])
    requires p in Walls(marks)
    ensures 0 <= p.x < n && 0 <= p.y < n
    decreases |marks|
  {
    var last := |marks| - 1;
    if p !in Fallen(marks[last]) {
      WallsInside(n, marks[..last], p);
    }
  }

  /** Walls only accumulate as more lines are read. */
  lemma {:induction false} WallsGrow(marks: seq<Mark>, i: nat, j: nat)
    requires i <= j <= |marks|
    ensures Walls(marks[..i]) <= Walls(marks[..j])
    decreases j - i
  {
    if i < j {
      WallsGrow(marks, i, j - 1);
      WallsNext(marks, j - 1);
    }
  }

  /** A board with fewer walls is connected whenever one with more walls is. */
  lemma ConnectedFewer(n: nat, fewer: set<Point>, more: set<Point>)
    requires fewer <= more
    ensures Connected(Walled(n, more)) ==> Connected(Walled(n, fewer))
  {
    var t := Point(n - 1, n - 1);
    assert Target(Walled(n, more)) == t == Target(Walled(n, fewer));
    if Connected(Walled(n, more)) {
      var k: nat :| Reach(Walled(n, more), t, k);
      WallsBlock(n, fewer, more, t, k);
    }
  }

  /** Once the path is cut it stays cut, whatever falls later. */
  lemma StaysBlocked(n: nat, marks: seq<Mark>, i: nat, j: nat)
    requires i <= j <= |marks|
    ensures Connected(Walled(n, Walls(marks[..j]))) ==> Connected(Walled(n, Walls(marks[..i])))
  {
    WallsGrow(marks, i, j);
    ConnectedFewer(n, Walls(marks[..i]), Walls(marks[..j]));
  }

  /** `grid[y][x] = '#'` on a grid that shows `walls`. */
  method Corrupt(grid: array2<char>, ghost walls: set<Point>, x: int, y: int)
    requires Shows(grid, walls) && 0 <= x < grid.Length1 && 0 <= y < grid.Length0
    modifies grid
    ensures Shows(grid, walls + {Point(x, y)})
  {
    grid[y, x] := '#';
  }

  /** Line i falls on a grid showing the walls of the marks before it: a throw leaves the
      grid alone, anything else leaves it showing the walls up to and including line i. */
  method Fall(grid: array2<char>, lines: seq<string>, ghost marks: seq<Mark>, i: nat) returns (m: Mark)
    requires i < |lines| == |marks| && marks == Marks(grid.Length0, lines)
    requires Shows(grid, Walls(marks[..i]))
    modifies grid
    ensures m == marks[i]
    ensures m != Throws ==> Shows(grid, Walls(marks[..i + 1]))
  {
    var n := grid.Length0;
    MarksIndex(n, lines, i);
    WallsNext(marks, i);
    m := Marking(n, lines[i]);
    MarkingRange(n, lines[i]);
    if m.Marked? && m.x >= 0 {
      Corrupt(grid, Walls(marks[..i]), m.x, m.y);
    }
  }

  /** No throw among the first i + 1 marks is none among the first i and none at i. */
  lemma QuietNext(marks: seq<Mark>, i: nat)
    requires i < |marks|
    ensures Throws in marks[..i + 1] <==> Throws in marks[..i] || marks[i] == Throws
  {
    assert marks[..i + 1] == marks[..i] + [marks[i]];
  }

  function Min(a: int, b: int): int { if a < b then a else b }

  /** What part 1 returns: the step count, the text "No path exists", or -1 after an error
      was caught. */
  datatype Pt1Answer = Steps(count: nat) | NoPath | Failed

  /** `solve_pt1`: the first `min(bytesToProcess, #lines)` lines fall, then the search runs.
      A line that makes the write throw ends the run with -1. */
  method SolvePt1(setup: Setup, input: string) returns (answer: Pt1Answer)
    ensures var n := setup.gridSize;
      var lines := Split(input, "\n");
      var marks := Marks(n, lines[..Min(setup.bytesToProcess, |lines|)]);
      (answer == Failed <==> Throws in marks) &&
      (answer.Steps? ==> Shortest(Walled(n, Walls(marks)), answer.count)) &&
      (answer == NoPath ==> !Connected(Walled(n, Walls(marks))))
  {
    var n := setup.gridSize;
    var lines := Split(input, "\n");
    var grid := CreateGrid(n);
    var count := Min(setup.bytesToProcess, |lines|);
    var fallen := lines[..count];
    ghost var marks := Marks(n, fallen);
    for i := 0 to count
      invariant grid.Length0 == n && Shows(grid, Walls(marks[..i]))
      invariant Throws !in marks[..i]
    {
      var m := Fall(grid, fallen, marks, i);
      QuietNext(marks, i);
      if m == Throws {
        return Failed;
      }
    }
    assert marks[..count] == marks;
    var shortest, _ := FindShortestPath(grid);
    ShownBoard(grid, Walls(marks));
    if shortest == -1 {
      answer := NoPath;
    } else {
      answer := Steps(shortest);
    }
  }

  /** `String(v)` for an integer. */
  function NumberText(v: int): string {
    if v < 0 then "-" + ToDecimal(-v) else ToDecimal(v)
  }

  /** The template `${x},${y}`. */
  function CoordText(x: int, y: int): string {
    NumberText(x) + "," + NumberText(y)
  }

  /** Digits hold no comma. */
  lemma DigitsNoComma(s: string)
    requires AllDigits(s)
    ensures ',' !in s
  {
    forall i | 0 <= i < |s| ensures s[i] != ',' {
      assert IsDigit(s[i]);
    }
  }

  /** Number text reads back as the number. */
  lemma NumberTextRead(v: int)
    ensures JsNumber(NumberText(v)) == Some(v)
    ensures ',' !in NumberText(v)
  {
    if v < 0 {
      var m: nat := -v;
      var d := ToDecimal(m);
      assert NumberText(v) == "-" + d;
      JsNumberOfNegated(m);
      DigitsNoComma(d);
      assert NumberText(v) == ['-'] + d;
    } else {
      var d := ToDecimal(v);
      assert NumberText(v) == d;
      JsNumberOfDecimal(v);
      DigitsNoComma(d);
    }
  }

  /** The answer text of part 2 reads back as the coordinates it names. */
  lemma CoordTextRead(x: int, y: int)
    ensures Coordinates(CoordText(x, y)) == (Some(x), Some(y))
  {
    NumberTextRead(x);
    NumberTextRead(y);
    SplitPair(NumberText(x), NumberText(y));
  }

  /** Two comma-free fields joined by a comma split back into those two. */
  lemma SplitPair(a: string, b: string)
    requires ',' !in a && ',' !in b
    ensures Split(a + "," + b, ",") == [a, b]
  {
    SplitFirst(a, ",", b);
    SplitAbsent(b, ",");
  }

  /** Fed back as an input line, the answer of part 2 marks the same cell. */
  lemma AnswerMarks(n: nat, x: int, y: int)
    requires x < n && 0 <= y < n
    ensures Marking(n, CoordText(x, y)) == Marked(x, y)
  {
    CoordTextRead(x, y);
  }

  /** The grid after mark i and all before it. */
  ghost function After(n: nat, marks: seq<Mark>, i: nat): Board
    requires i < |marks|
  {
    Walled(n, Walls(marks[..i + 1]))
  }

  /** Part 2 reads past mark j: it does not throw, and if it marks a cell the path is still
      open afterwards. */
  ghost predicate Survives(n: nat, marks: seq<Mark>, j: nat)
    requires j < |marks|
  {
    match marks[j]
    case Ignored => true
    case Marked(_, _) => Connected(After(n, marks, j))
    case Throws => false
  }

  /** Part 2 reads past each of the first i marks. */
  ghost predicate SurvivedTo(n: nat, marks: seq<Mark>, i: nat)
    requires i <= |marks|
    decreases i
  {
    i == 0 || (SurvivedTo(n, marks, i - 1) && Survives(n, marks, i - 1))
  }

  /** Surviving up to i is surviving each mark before i. */
  lemma {:induction false} SurvivedEach(n: nat, marks: seq<Mark>, i: nat, j: nat)
    requires j < i <= |marks| && SurvivedTo(n, marks, i)
    ensures Survives(n, marks, j)
    decreases i
  {
    if j < i - 1 {
      SurvivedEach(n, marks, i - 1, j);
    }
  }

  /** Part 2 stops at mark i with `answer`. */
  ghost predicate StopsAt(n: nat, marks: seq<Mark>, i: nat, answer: string)
    requires i < |marks|
  {
    match marks[i]
    case Ignored => false
    case Marked(x, y) => !Connected(After(n, marks, i)) && answer == CoordText(x, y)
    case Throws => answer == "Error processing input"
  }

  /** `solve_pt2`: bytes fall one line at a time and the search runs after every marked
      line; the first byte after which no path remains is returned as `x,y`. `stop` is the
      index of the line the loop stops at, or the number of lines if it never stops. */
  method SolvePt2(setup: Setup, input: string) returns (answer: string, ghost stop: nat)
    ensures stop <= |Split(input, "\n")|
    ensures forall j :: 0 <= j < stop ==> Survives(setup.gridSize, Marks(setup.gridSize, Split(input, "\n")), j)
    ensures stop == |Split(input, "\n")| ==> answer == "All bytes processed, path still exists"
    ensures stop < |Split(input, "\n")| ==>
      StopsAt(setup.gridSize, Marks(setup.gridSize, Split(input, "\n")), stop, answer)
  {
    var n := setup.gridSize;
    var lines := Split(input, "\n");
    var grid := CreateGrid(n);
    ghost var marks := Marks(n, lines);
    for i := 0 to |lines|
      invariant grid.Length0 == n && Shows(grid, Walls(marks[..i]))
      invariant SurvivedTo(n, marks, i)
    {
      var m := Fall(grid, lines, marks, i);
      match m
      case Ignored =>
        assert Survives(n, marks, i);
      case Throws =>
        answer, stop := "Error processing input", i;
        SurvivedBefore(n, marks, i);
        return;
      case Marked(x, y) =>
        var open := PathExists(grid);
        ShownBoard(grid, Walls(marks[..i + 1]));
        assert After(n, marks, i) == BoardOf(grid);
        if !open {
          answer, stop := CoordText(x, y), i;
          SurvivedBefore(n, marks, i);
          return;
        }
        assert Survives(n, marks, i);
    }
    answer, stop := "All bytes processed, path still exists", |lines|;
    SurvivedBefore(n, marks, stop);
  }

  /** The loop's record of survival, read mark by mark. */
  lemma SurvivedBefore(n: nat, marks: seq<Mark>, i: nat)
    requires i <= |marks| && SurvivedTo(n, marks, i)
    ensures forall j :: 0 <= j < i ==> Survives(n, marks, j)
  {
    forall j | 0 <= j < i ensures Survives(n, marks, j) {
      SurvivedEach(n, marks, i, j);
    }
  }
}
