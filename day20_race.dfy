/** Day 20, the racetrack: the grid, the walks through it, and the two breadth-first
    searches of `index.day20.ts` — `findShortestPath`, which counts the steps of a shortest
    walk or answers Infinity, and `findHonestlyReachablePositions`, which collects every
    cell a walk from the start can reach without cheating. */
module Day20Race {
  import opened SetFacts

  datatype Point = Point(x: int, y: int)

  /** A JavaScript number as the race uses it: a whole number, or Infinity. */
  datatype Num = Fin(v: int) | Inf

  /** `+` on such numbers: Infinity absorbs everything. */
  function Add(a: Num, b: Num): (r: Num)
    ensures r.Inf? <==> a.Inf? || b.Inf?
    ensures r.Fin? ==> r.v == a.v + b.v
  {
    if a.Inf? || b.Inf? then Inf else Fin(a.v + b.v)
  }

  /** `-` by a whole number: Infinity stays Infinity. */
  function Sub(a: Num, n: int): (r: Num)
    ensures r.Inf? <==> a.Inf?
    ensures r.Fin? ==> r.v == a.v - n
  {
    if a.Inf? then Inf else Fin(a.v - n)
  }

  /** `<`: every whole number is below Infinity, and Infinity is below nothing. */
  predicate Less(a: Num, b: Num) {
    a.Fin? && (b.Inf? || a.v < b.v)
  }

  /** `a >= n` for a whole number n. */
  predicate AtLeast(a: Num, n: int) {
    a.Inf? || a.v >= n
  }

  /** The four directions in the order the searches try them: down, right, up, left. */
  const Directions: seq<(int, int)> := [(0, 1), (1, 0), (0, -1), (-1, 0)]

  function Step(p: Point, i: nat): Point
    requires i < 4
  {
    Point(p.x + Directions[i].0, p.y + Directions[i].1)
  }

  /** The cell from which direction `i` leads to `p`. */
  function Back(p: Point, i: nat): Point
    requires i < 4
  {
    Point(p.x - Directions[i].0, p.y - Directions[i].1)
  }

  /** The four directions lead to four different cells. */
  lemma StepsDiffer(p: Point, i: nat, j: nat)
    requires i < 4 && j < 4 && i != j
    ensures Step(p, i) != Step(p, j)
  {
  }

  function Abs(v: int): nat { if v < 0 then -v else v }

  /** The Manhattan distance between two cells. */
  function Manhattan(p: Point, q: Point): nat {
    Abs(q.x - p.x) + Abs(q.y - p.y)
  }

  // ---------------------------------------------------------------------------------
  // The grid and its walks

  /** A cell a walk may enter: its row is in `[0, grid.length)`, its column in
      `[0, grid[0].length)`, and it is not `#`. A column past the end of a shorter row reads
      `undefined`, which is not `#`. */
  predicate Passable(grid: seq<string>, p: Point) {
    0 <= p.y < |grid| && 0 <= p.x < |grid[0]| && !(p.x < |grid[p.y]| && grid[p.y][p.x] == '#')
  }

  /** `p` can be reached from `from` in at most `k` steps, each into a passable cell. The
      first cell of a walk is never tested. */
  ghost predicate Reach(grid: seq<string>, from: Point, p: Point, k: nat)
    decreases k
  {
    p == from ||
    (k > 0 && Passable(grid, p) && exists i :: 0 <= i < 4 && Reach(grid, from, Back(p, i), k - 1))
  }

  /** Some walk leads from `from` to `p`. */
  ghost predicate Connected(grid: seq<string>, from: Point, p: Point) {
    exists k: nat :: Reach(grid, from, p, k)
  }

  /** `n` is the length of a shortest walk from `from` to `to`. */
  ghost predicate Shortest(grid: seq<string>, from: Point, to: Point, n: nat) {
    Reach(grid, from, to, n) && forall k: nat :: k < n ==> !Reach(grid, from, to, k)
  }

  /** `d` is the answer a shortest-walk search should give: the length of a shortest walk,
      or Infinity when there is no walk at all. */
  ghost predicate IsDistance(grid: seq<string>, from: Point, to: Point, d: Num) {
    match d
    case Fin(n) => n >= 0 && Shortest(grid, from, to, n)
    case Inf => !Connected(grid, from, to)
  }

  lemma ReachVia(grid: seq<string>, from: Point, p: Point, k: nat, i: nat)
    requires i < 4 && k > 0 && Passable(grid, p) && Reach(grid, from, Back(p, i), k - 1)
    ensures Reach(grid, from, p, k)
  {
  }

  /** One more step into a passable cell extends a walk. */
  lemma ReachStep(grid: seq<string>, from: Point, q: Point, k: nat, i: nat)
    requires i < 4 && Reach(grid, from, q, k) && Passable(grid, Step(q, i))
    ensures Reach(grid, from, Step(q, i), k + 1)
  {
    assert Back(Step(q, i), i) == q;
    ReachVia(grid, from, Step(q, i), k + 1, i);
  }

  /** A walk to a cell other than its first ends with a step from a neighbour. */
  lemma ReachBack(grid: seq<string>, from: Point, p: Point, k: nat)
    requires Reach(grid, from, p, k) && p != from
    ensures k > 0 && Passable(grid, p)
    ensures exists i :: 0 <= i < 4 && Reach(grid, from, Back(p, i), k - 1)
  {
  }

  /** A cell within `k` steps is within any larger number of steps. */
  lemma {:induction false} ReachMono(grid: seq<string>, from: Point, p: Point, k: nat, m: nat)
    requires k <= m
    ensures Reach(grid, from, p, k) ==> Reach(grid, from, p, m)
    decreases k
  {
    if Reach(grid, from, p, k) && p != from {
      var i :| 0 <= i < 4 && Reach(grid, from, Back(p, i), k - 1);
      ReachMono(grid, from, Back(p, i), k - 1, m - 1);
      ReachVia(grid, from, p, m, i);
    }
  }

  /** A walk from `a` to `b` followed by one from `b` to `c` is a walk from `a` to `c`. */
  lemma {:induction false} ReachJoin(grid: seq<string>, a: Point, b: Point, c: Point, j: nat, k: nat)
    requires Reach(grid, a, b, j) && Reach(grid, b, c, k)
    ensures Reach(grid, a, c, j + k)
    decreases k
  {
    if c == b {
      ReachMono(grid, a, b, j, j + k);
    } else {
      ReachBack(grid, b, c, k);
      var i :| 0 <= i < 4 && Reach(grid, b, Back(c, i), k - 1);
      ReachJoin(grid, a, b, Back(c, i), j, k - 1);
      ReachVia(grid, a, c, j + k, i);
    }
  }

  /** Every cell a walk reaches is its first cell or passable. */
  lemma ReachInside(grid: seq<string>, from: Point, p: Point, k: nat)
    requires Reach(grid, from, p, k)
    ensures p == from || Passable(grid, p)
  {
  }

  /** A cell that some walk reaches has a shortest walk, no longer than that one. */
  lemma {:induction false} ShortestWithin(grid: seq<string>, from: Point, to: Point, k: nat)
    requires Reach(grid, from, to, k)
    ensures exists n: nat :: n <= k && Shortest(grid, from, to, n)
    decreases k
  {
    if !Shortest(grid, from, to, k) {
      var j: nat :| j < k && Reach(grid, from, to, j);
      ShortestWithin(grid, from, to, j);
    }
  }

  /** The number of steps of a shortest walk, or Infinity when no walk exists. */
  ghost function Distance(grid: seq<string>, from: Point, to: Point): (d: Num)
    ensures IsDistance(grid, from, to, d)
  {
    if Connected(grid, from, to) then
      var k: nat :| Reach(grid, from, to, k);
      ShortestWithin(grid, from, to, k);
      var n: nat :| Shortest(grid, from, to, n);
      Fin(n)
    else Inf
  }

  /** The answer of a shortest-walk search is determined. */
  lemma DistanceIs(grid: seq<string>, from: Point, to: Point, d: Num)
    requires IsDistance(grid, from, to, d)
    ensures d == Distance(grid, from, to)
  {
  }

  /** Walks compose: the distance from `a` to `c` is at most the distance from `a` to `b`
      plus the distance from `b` to `c`. */
  lemma DistanceJoin(grid: seq<string>, a: Point, b: Point, c: Point)
    requires Distance(grid, a, b).Fin? && Distance(grid, b, c).Fin?
    ensures Distance(grid, a, c).Fin?
    ensures Distance(grid, a, c).v <= Distance(grid, a, b).v + Distance(grid, b, c).v
  {
    var j, k := Distance(grid, a, b).v, Distance(grid, b, c).v;
    ReachJoin(grid, a, b, c, j, k);
  }

  /** Every cell a walk from `from` can stand on: `from` and the passable cells. */
  function Space(grid: seq<string>, from: Point): (s: set<Point>)
    ensures from in s
    ensures forall p :: Passable(grid, p) ==> p in s
    ensures forall p :: p in s ==> p == from || Passable(grid, p)
  {
    var cells := if grid == [] then {} else
      set y, x | 0 <= y < |grid| && 0 <= x < |grid[0]| && Passable(grid, Point(x, y)) :: Point(x, y);
    assert forall p :: Passable(grid, p) ==> p == Point(p.x, p.y) && p in cells;
    cells + {from}
  }

  // ---------------------------------------------------------------------------------
  // The direction loop

  function Cells(s: seq<Point>): set<Point> {
    set p | p in s
  }

  lemma CellsAppend(a: seq<Point>, c: seq<Point>)
    ensures Cells(a + c) == Cells(a) + Cells(c)
  {
  }

  /** Direction `m` from `p` leads to a passable cell not yet seen. */
  predicate Wanted(grid: seq<string>, seen: set<Point>, p: Point, m: nat)
    requires m < 4
  {
    Passable(grid, Step(p, m)) && Step(p, m) !in seen
  }

  /** The cells the direction loop queues around `p` when it has tried the first `n`
      directions, judged against the cells `seen` before the loop began. */
  function Fresh(grid: seq<string>, seen: set<Point>, p: Point, n: nat): (r: seq<Point>)
    requires n <= 4
    ensures |r| <= n
    ensures forall j :: 0 <= j < |r| ==> Passable(grid, r[j]) && r[j] !in seen
  {
    if n == 0 then []
    else
      Fresh(grid, seen, p, n - 1) + (if Wanted(grid, seen, p, n - 1) then [Step(p, n - 1)] else [])
  }

  /** Every queued cell is a wanted neighbour. */
  lemma {:induction false} FreshFrom(grid: seq<string>, seen: set<Point>, p: Point, n: nat, q: Point)
    requires n <= 4 && q in Fresh(grid, seen, p, n)
    ensures exists m :: 0 <= m < n && Wanted(grid, seen, p, m) && q == Step(p, m)
  {
    if q in Fresh(grid, seen, p, n - 1) {
      FreshFrom(grid, seen, p, n - 1, q);
    } else {
      assert q == Step(p, n - 1) && Wanted(grid, seen, p, n - 1);
    }
  }

  /** Every wanted neighbour among the tried directions is queued. */
  lemma {:induction false} FreshAll(grid: seq<string>, seen: set<Point>, p: Point, n: nat, m: nat)
    requires m < n <= 4 && Wanted(grid, seen, p, m)
    ensures Step(p, m) in Fresh(grid, seen, p, n)
  {
    if m < n - 1 {
      FreshAll(grid, seen, p, n - 1, m);
    }
  }

  /** A direction not yet tried has queued nothing. */
  lemma FreshNotYet(grid: seq<string>, seen: set<Point>, p: Point, n: nat, m: nat)
    requires n <= m < 4
    ensures Step(p, m) !in Fresh(grid, seen, p, n)
  {
    if Step(p, m) in Fresh(grid, seen, p, n) {
      FreshFrom(grid, seen, p, n, Step(p, m));
      var m' :| 0 <= m' < n && Wanted(grid, seen, p, m') && Step(p, m) == Step(p, m');
      StepsDiffer(p, m, m');
    }
  }

  /** One turn of the direction loop: testing the cell against the cells seen so far
      decides as testing it against the starting set would. */
  lemma FreshTurn(grid: seq<string>, seen: set<Point>, p: Point, i: nat)
    requires i < 4
    ensures Passable(grid, Step(p, i)) && Step(p, i) !in seen + Cells(Fresh(grid, seen, p, i))
      <==> Wanted(grid, seen, p, i)
    ensures Fresh(grid, seen, p, i + 1) ==
      Fresh(grid, seen, p, i) + if Wanted(grid, seen, p, i) then [Step(p, i)] else []
  {
    FreshNotYet(grid, seen, p, i, i);
  }

  // ---------------------------------------------------------------------------------
  // findShortestPath

  /** A queued cell with the number of steps taken to reach it. */
  datatype Item = Item(point: Point, steps: nat)

  function Queued(queue: seq<Item>): set<Point> {
    set item | item in queue :: item.point
  }

  lemma QueuedAppend(a: seq<Item>, c: seq<Item>)
    ensures Queued(a + c) == Queued(a) + Queued(c)
  {
    forall p | p in Queued(a + c) ensures p in Queued(a) + Queued(c) {
      var item :| item in a + c && item.point == p;
    }
  }

  lemma QueuedAt(queue: seq<Item>, j: nat)
    requires j < |queue|
    ensures queue[j].point in Queued(queue)
  {
    assert queue[j] in queue;
  }

  /** Each cell paired with the same step count. */
  function Items(cells: seq<Point>, steps: nat): (r: seq<Item>)
    ensures |r| == |cells|
    ensures forall j :: 0 <= j < |r| ==> r[j] == Item(cells[j], steps)
  {
    seq(|cells|, j requires 0 <= j < |cells| => Item(cells[j], steps))
  }

  /** Queuing one more cell after the items of `cells` queues the items of `cells + [p]`. */
  lemma ItemsSnoc(queue: seq<Item>, cells: seq<Point>, p: Point, steps: nat)
    ensures queue + Items(cells, steps) + [Item(p, steps)] == queue + Items(cells + [p], steps)
  {
    assert Items(cells + [p], steps) == Items(cells, steps) + [Item(p, steps)];
  }

  lemma ItemsCells(cells: seq<Point>, steps: nat)
    ensures Queued(Items(cells, steps)) == Cells(cells)
  {
    var items := Items(cells, steps);
    forall p | p in Cells(cells) ensures p in Queued(items) {
      var j :| 0 <= j < |cells| && cells[j] == p;
      QueuedAt(items, j);
    }
  }

  /** The items the direction loop of `findShortestPath` pushes for `current`. */
  function Pushes(grid: seq<string>, visited: set<Point>, current: Item): seq<Item> {
    Items(Fresh(grid, visited, current.point, 4), current.steps + 1)
  }

  /** The direction loop of `findShortestPath`: each neighbour in the grid, not `#` and not
      yet visited, is marked visited and queued one step further on. */
  method ExpandSteps(grid: seq<string>, current: Item, visited0: set<Point>, queue0: seq<Item>)
    returns (visited: set<Point>, queue: seq<Item>)
    ensures queue == queue0 + Pushes(grid, visited0, current)
    ensures visited == visited0 + Cells(Fresh(grid, visited0, current.point, 4))
  {
    visited, queue := visited0, queue0;
    for i := 0 to 4
      invariant queue == queue0 + Items(Fresh(grid, visited0, current.point, i), current.steps + 1)
      invariant visited == visited0 + Cells(Fresh(grid, visited0, current.point, i))
    {
      var next := Step(current.point, i);
      StepsTurn(grid, visited0, current, i, queue0, queue, visited);
      if Passable(grid, next) && next !in visited {
        visited := visited + {next};
        queue := queue + [Item(next, current.steps + 1)];
      }
    }
  }

  /** One turn of the direction loop of `findShortestPath` takes its state from the first
      `i` directions to the first `i + 1`. */
  lemma StepsTurn(grid: seq<string>, visited0: set<Point>, current: Item, i: nat,
                  queue0: seq<Item>, queue: seq<Item>, visited: set<Point>)
    requires i < 4
    requires queue == queue0 + Items(Fresh(grid, visited0, current.point, i), current.steps + 1)
    requires visited == visited0 + Cells(Fresh(grid, visited0, current.point, i))
    ensures var next := Step(current.point, i);
      var f := Fresh(grid, visited0, current.point, i + 1);
      if Passable(grid, next) && next !in visited then
        queue + [Item(next, current.steps + 1)] == queue0 + Items(f, current.steps + 1) &&
        visited + {next} == visited0 + Cells(f)
      else
        queue == queue0 + Items(f, current.steps + 1) && visited == visited0 + Cells(f)
  {
    var next := Step(current.point, i);
    var f := Fresh(grid, visited0, current.point, i);
    FreshTurn(grid, visited0, current.point, i);
    if Passable(grid, next) && next !in visited {
      CellsAppend(f, [next]);
      ItemsSnoc(queue0, f, next, current.steps + 1);
    }
  }

  /** Every queued item records a walk of its length to its cell. */
  ghost predicate Sound(grid: seq<string>, from: Point, queue: seq<Item>) {
    forall j :: 0 <= j < |queue| ==> Reach(grid, from, queue[j].point, queue[j].steps)
  }

  /** No queued cell can be reached in fewer steps than its item records. */
  ghost predicate Optimal(grid: seq<string>, from: Point, queue: seq<Item>) {
    forall j :: 0 <= j < |queue| && queue[j].steps > 0 ==> !Reach(grid, from, queue[j].point, queue[j].steps - 1)
  }

  /** The queue's step counts never decrease and span at most one level. */
  predicate Levels(queue: seq<Item>) {
    forall i, j :: 0 <= i <= j < |queue| ==> queue[i].steps <= queue[j].steps <= queue[i].steps + 1
  }

  /** The visited set is the dequeued cells and the queued ones; all of them are the
      starting cell or passable. */
  ghost predicate Ledger(grid: seq<string>, from: Point, done: set<Point>, queue: seq<Item>, visited: set<Point>) {
    visited == done + Queued(queue) && from in visited &&
    forall p :: p in visited ==> p == from || Passable(grid, p)
  }

  /** Every passable neighbour of a dequeued cell has been seen. */
  ghost predicate Expanded(grid: seq<string>, done: set<Point>, seen: set<Point>) {
    forall p, i :: p in done && 0 <= i < 4 && Passable(grid, Step(p, i)) ==> Step(p, i) in seen
  }

  /** Every cell closer than the head of the queue has already been dequeued. */
  ghost predicate Complete(grid: seq<string>, from: Point, done: set<Point>, queue: seq<Item>) {
    queue != [] ==> forall p, k: nat :: k < queue[0].steps && Reach(grid, from, p, k) ==> p in done
  }

  ghost predicate Search(grid: seq<string>, from: Point, to: Point, done: set<Point>, queue: seq<Item>, visited: set<Point>) {
    Sound(grid, from, queue) && Optimal(grid, from, queue) && Levels(queue) &&
    Ledger(grid, from, done, queue, visited) && Expanded(grid, done, visited) &&
    Complete(grid, from, done, queue) && to !in done
  }

  lemma SearchStarts(grid: seq<string>, from: Point, to: Point)
    ensures Search(grid, from, to, {}, [Item(from, 0)], {from})
  {
    var queue := [Item(from, 0)];
    QueuedAt(queue, 0);
    assert Queued(queue) == {from};
  }

  /** A cell as close as the head of the queue has been seen. */
  lemma ReachedVisited(grid: seq<string>, from: Point, done: set<Point>, queue: seq<Item>, visited: set<Point>, q: Point)
    requires queue != [] && Complete(grid, from, done, queue) && Expanded(grid, done, visited) && from in visited
    ensures Reach(grid, from, q, queue[0].steps) ==> q in visited
  {
    var s := queue[0].steps;
    if Reach(grid, from, q, s) && q != from {
      ReachBack(grid, from, q, s);
      var i :| 0 <= i < 4 && Reach(grid, from, Back(q, i), s - 1);
      assert Back(q, i) in done;
      assert Step(Back(q, i), i) == q;
    }
  }

  /** The pushed items are sound and optimal: one step past the head, and not closer. */
  lemma PushesSoundOptimal(grid: seq<string>, from: Point, done: set<Point>, queue: seq<Item>, visited: set<Point>)
    requires queue != [] && Reach(grid, from, queue[0].point, queue[0].steps)
    requires Complete(grid, from, done, queue) && Expanded(grid, done, visited) && from in visited
    ensures Sound(grid, from, Pushes(grid, visited, queue[0]))
    ensures Optimal(grid, from, Pushes(grid, visited, queue[0]))
  {
    var cur := queue[0];
    var f := Fresh(grid, visited, cur.point, 4);
    var pushes := Pushes(grid, visited, cur);
    forall j | 0 <= j < |pushes|
      ensures Reach(grid, from, pushes[j].point, pushes[j].steps)
      ensures !Reach(grid, from, pushes[j].point, pushes[j].steps - 1)
    {
      assert pushes[j].point == f[j] && f[j] in f;
      FreshFrom(grid, visited, cur.point, 4, f[j]);
      var i :| 0 <= i < 4 && Wanted(grid, visited, cur.point, i) && f[j] == Step(cur.point, i);
      ReachStep(grid, from, cur.point, cur.steps, i);
      ReachedVisited(grid, from, done, queue, visited, f[j]);
    }
  }

  lemma SoundAppend(grid: seq<string>, from: Point, a: seq<Item>, c: seq<Item>)
    requires Sound(grid, from, a) && Sound(grid, from, c)
    ensures Sound(grid, from, a + c)
  {
    forall j | 0 <= j < |a + c| ensures Reach(grid, from, (a + c)[j].point, (a + c)[j].steps) {
      if j >= |a| {
        assert (a + c)[j] == c[j - |a|];
      }
    }
  }

  lemma OptimalAppend(grid: seq<string>, from: Point, a: seq<Item>, c: seq<Item>)
    requires Optimal(grid, from, a) && Optimal(grid, from, c)
    ensures Optimal(grid, from, a + c)
  {
    forall j | 0 <= j < |a + c| && (a + c)[j].steps > 0
      ensures !Reach(grid, from, (a + c)[j].point, (a + c)[j].steps - 1)
    {
      if j >= |a| {
        assert (a + c)[j] == c[j - |a|];
      }
    }
  }

  /** Dequeuing the head and appending items one level deeper keeps the queue in levels. */
  lemma LevelsStep(queue: seq<Item>, pushes: seq<Item>)
    requires queue != [] && Levels(queue)
    requires forall j :: 0 <= j < |pushes| ==> pushes[j].steps == queue[0].steps + 1
    ensures Levels(queue[1..] + pushes)
  {
    var next := queue[1..] + pushes;
    forall i, j | 0 <= i <= j < |next| ensures next[i].steps <= next[j].steps <= next[i].steps + 1 {
      if i >= |queue| - 1 {
        assert next[i] == pushes[i - (|queue| - 1)] && next[j] == pushes[j - (|queue| - 1)];
      } else if j >= |queue| - 1 {
        assert next[i] == queue[i + 1] && next[j] == pushes[j - (|queue| - 1)];
        assert queue[0].steps <= queue[i + 1].steps <= queue[0].steps + 1;
      } else {
        assert next[i] == queue[i + 1] && next[j] == queue[j + 1];
      }
    }
  }

  lemma QueueStep(grid: seq<string>, from: Point, to: Point, done: set<Point>, queue: seq<Item>, visited: set<Point>)
    requires Search(grid, from, to, done, queue, visited) && queue != []
    ensures Sound(grid, from, queue[1..] + Pushes(grid, visited, queue[0]))
    ensures Optimal(grid, from, queue[1..] + Pushes(grid, visited, queue[0]))
    ensures Levels(queue[1..] + Pushes(grid, visited, queue[0]))
  {
    var pushes := Pushes(grid, visited, queue[0]);
    PushesSoundOptimal(grid, from, done, queue, visited);
    SoundAppend(grid, from, queue[1..], pushes);
    OptimalAppend(grid, from, queue[1..], pushes);
    LevelsStep(queue, pushes);
  }

  lemma LedgerStep(grid: seq<string>, from: Point, done: set<Point>, queue: seq<Item>, visited: set<Point>)
    requires queue != [] && Ledger(grid, from, done, queue, visited)
    ensures var f := Fresh(grid, visited, queue[0].point, 4);
      Ledger(grid, from, done + {queue[0].point}, queue[1..] + Pushes(grid, visited, queue[0]), visited + Cells(f))
  {
    var f := Fresh(grid, visited, queue[0].point, 4);
    var pushes := Pushes(grid, visited, queue[0]);
    assert queue == [queue[0]] + queue[1..];
    QueuedAppend([queue[0]], queue[1..]);
    assert Queued([queue[0]]) == {queue[0].point};
    QueuedAppend(queue[1..], pushes);
    ItemsCells(f, queue[0].steps + 1);
    assert visited + Cells(f) == done + {queue[0].point} + Queued(queue[1..] + pushes);
    forall p | p in Cells(f) ensures Passable(grid, p) {
      var j :| 0 <= j < |f| && f[j] == p;
    }
  }

  lemma ExpandedStep(grid: seq<string>, done: set<Point>, current: Point, visited: set<Point>)
    requires Expanded(grid, done, visited)
    ensures Expanded(grid, done + {current}, visited + Cells(Fresh(grid, visited, current, 4)))
  {
    forall p, i | p in done + {current} && 0 <= i < 4 && Passable(grid, Step(p, i))
      ensures Step(p, i) in visited + Cells(Fresh(grid, visited, current, 4))
    {
      if p !in done && Step(p, i) !in visited {
        FreshAll(grid, visited, current, 4, i);
      }
    }
  }

  /** A cell reached within the old head's level, but closer than the new head, is the old
      head or was dequeued before it. */
  lemma CloserDequeued(grid: seq<string>, from: Point, done: set<Point>, queue: seq<Item>, visited: set<Point>,
                       next: seq<Item>, p: Point, k: nat)
    requires queue != [] && Optimal(grid, from, queue) && Complete(grid, from, done, queue)
    requires Expanded(grid, done, visited) && from in visited && visited == done + Queued(queue)
    requires next != [] && Levels(next) && |queue| - 1 <= |next| && next[..|queue| - 1] == queue[1..]
    requires queue[0].steps <= k < next[0].steps && next[0].steps <= queue[0].steps + 1
    requires Reach(grid, from, p, k)
    ensures p in done || p == queue[0].point
  {
    ReachedVisited(grid, from, done, queue, visited, p);
    forall j | 1 <= j < |queue| ensures queue[j].point != p {
      assert next[j - 1] == next[..|queue| - 1][j - 1] == queue[j];
      assert next[0].steps <= next[j - 1].steps;
      ReachMono(grid, from, p, k, queue[j].steps - 1);
    }
    if p !in done {
      var item :| item in queue && item.point == p;
      var j :| 0 <= j < |queue| && queue[j] == item;
      assert j == 0;
    }
  }

  lemma CompleteStep(grid: seq<string>, from: Point, done: set<Point>, queue: seq<Item>, visited: set<Point>,
                     pushes: seq<Item>)
    requires queue != [] && Levels(queue) && Optimal(grid, from, queue) && Complete(grid, from, done, queue)
    requires Expanded(grid, done, visited) && from in visited && visited == done + Queued(queue)
    requires forall j :: 0 <= j < |pushes| ==> pushes[j].steps == queue[0].steps + 1
    ensures Complete(grid, from, done + {queue[0].point}, queue[1..] + pushes)
  {
    var cur := queue[0];
    var s := cur.steps;
    var next := queue[1..] + pushes;
    LevelsStep(queue, pushes);
    if next != [] {
      assert next[0].steps <= s + 1 by {
        if |queue| > 1 {
          assert next[0] == queue[1];
        } else {
          assert next[0] == pushes[0];
        }
      }
      assert next[..|queue| - 1] == queue[1..];
      forall p, k: nat | k < next[0].steps && Reach(grid, from, p, k) ensures p in done + {cur.point} {
        if k >= s {
          CloserDequeued(grid, from, done, queue, visited, next, p, k);
        }
      }
    }
  }

  /** One turn of the search loop keeps every invariant. */
  lemma SearchStep(grid: seq<string>, from: Point, to: Point, done: set<Point>, queue: seq<Item>, visited: set<Point>)
    requires Search(grid, from, to, done, queue, visited) && queue != [] && queue[0].point != to
    ensures Search(grid, from, to, done + {queue[0].point}, queue[1..] + Pushes(grid, visited, queue[0]),
      visited + Cells(Fresh(grid, visited, queue[0].point, 4)))
  {
    QueueStep(grid, from, to, done, queue, visited);
    LedgerStep(grid, from, done, queue, visited);
    ExpandedStep(grid, done, queue[0].point, visited);
    CompleteStep(grid, from, done, queue, visited, Pushes(grid, visited, queue[0]));
  }

  /** A turn that queues anything sees a cell it had not seen. */
  lemma TurnShrinks(grid: seq<string>, from: Point, current: Point, visited: set<Point>)
    requires forall p :: p in visited ==> p == from || Passable(grid, p)
    ensures var f := Fresh(grid, visited, current, 4);
      f != [] ==> |Space(grid, from) - (visited + Cells(f))| < |Space(grid, from) - visited|
  {
    var f := Fresh(grid, visited, current, 4);
    if f != [] {
      assert f[0] in Space(grid, from) && f[0] in Cells(f) && f[0] !in visited;
      Shrinks(Space(grid, from), visited, visited + Cells(f));
    }
  }

  /** The head of the queue at the target gives the shortest walk. */
  lemma FoundTarget(grid: seq<string>, from: Point, queue: seq<Item>)
    requires queue != [] && Sound(grid, from, queue) && Optimal(grid, from, queue)
    ensures Shortest(grid, from, queue[0].point, queue[0].steps)
  {
    var s := queue[0].steps;
    forall k: nat | k < s ensures !Reach(grid, from, queue[0].point, k) {
      ReachMono(grid, from, queue[0].point, k, s - 1);
    }
  }

  /** Once nothing is left to dequeue, every reachable cell has been dequeued. */
  lemma {:induction false} Exhausted(grid: seq<string>, from: Point, done: set<Point>, p: Point, k: nat)
    requires Expanded(grid, done, done) && from in done
    ensures Reach(grid, from, p, k) ==> p in done
    decreases k
  {
    if Reach(grid, from, p, k) && p != from {
      var i :| 0 <= i < 4 && Reach(grid, from, Back(p, i), k - 1);
      Exhausted(grid, from, done, Back(p, i), k - 1);
      assert Step(Back(p, i), i) == p;
    }
  }

  /** `findShortestPath`: breadth-first search from `start`, answering the length of a
      shortest walk to `end`, or Infinity when the queue runs dry first. */
  method FindShortestPath(grid: seq<string>, start: Point, end: Point) returns (steps: Num)
    ensures steps == Distance(grid, start, end)
  {
    var queue := [Item(start, 0)];
    var visited := {start};
    ghost var done: set<Point> := {};
    SearchStarts(grid, start, end);
    while queue != []
      invariant Search(grid, start, end, done, queue, visited)
      decreases |Space(grid, start) - visited|, |queue|
    {
      var current := queue[0];
      if current.point == end {
        FoundTarget(grid, start, queue);
        DistanceIs(grid, start, end, Fin(current.steps));
        return Fin(current.steps);
      }
      SearchStep(grid, start, end, done, queue, visited);
      TurnShrinks(grid, start, current.point, visited);
      visited, queue := ExpandSteps(grid, current, visited, queue[1..]);
      done := done + {current.point};
    }
    forall k: nat ensures !Reach(grid, start, end, k) {
      Exhausted(grid, start, done, end, k);
    }
    DistanceIs(grid, start, end, Inf);
    return Inf;
  }

  // ---------------------------------------------------------------------------------
  // findHonestlyReachablePositions

  /** The direction loop of `findHonestlyReachablePositions`: each neighbour in the grid,
      not `#` and not yet reachable, is marked reachable and queued. */
  method ExpandReach(grid: seq<string>, current: Point, reachable0: set<Point>, queue0: seq<Point>)
    returns (reachable: set<Point>, queue: seq<Point>)
    ensures queue == queue0 + Fresh(grid, reachable0, current, 4)
    ensures reachable == reachable0 + Cells(Fresh(grid, reachable0, current, 4))
  {
    reachable, queue := reachable0, queue0;
    for i := 0 to 4
      invariant queue == queue0 + Fresh(grid, reachable0, current, i)
      invariant reachable == reachable0 + Cells(Fresh(grid, reachable0, current, i))
    {
      var next := Step(current, i);
      ReachTurn(grid, reachable0, current, i, queue0, queue, reachable);
      if Passable(grid, next) {
        if next !in reachable {
          reachable := reachable + {next};
          queue := queue + [next];
        }
      }
    }
  }

  /** One turn of the direction loop of `findHonestlyReachablePositions` takes its state
      from the first `i` directions to the first `i + 1`. */
  lemma ReachTurn(grid: seq<string>, reachable0: set<Point>, current: Point, i: nat,
                  queue0: seq<Point>, queue: seq<Point>, reachable: set<Point>)
    requires i < 4
    requires queue == queue0 + Fresh(grid, reachable0, current, i)
    requires reachable == reachable0 + Cells(Fresh(grid, reachable0, current, i))
    ensures var next := Step(current, i);
      var f := Fresh(grid, reachable0, current, i + 1);
      if Passable(grid, next) && next !in reachable then
        queue + [next] == queue0 + f && reachable + {next} == reachable0 + Cells(f)
      else
        queue == queue0 + f && reachable == reachable0 + Cells(f)
  {
    var next := Step(current, i);
    var f := Fresh(grid, reachable0, current, i);
    FreshTurn(grid, reachable0, current, i);
    if Passable(grid, next) && next !in reachable {
      CellsAppend(f, [next]);
      assert queue0 + f + [next] == queue0 + (f + [next]);
    }
  }

  /** The flood fill's invariant: the reachable set is the dequeued cells and the queued
      ones, it holds the start, every cell in it is connected to the start, and every
      passable neighbour of a dequeued cell is in it. */
  ghost predicate Flooding(grid: seq<string>, from: Point, done: set<Point>, queue: seq<Point>, reachable: set<Point>) {
    reachable == done + Cells(queue) && from in reachable &&
    (forall p :: p in reachable ==> Connected(grid, from, p)) &&
    Expanded(grid, done, reachable)
  }

  /** One turn of the flood fill keeps its invariant. */
  lemma FloodStep(grid: seq<string>, from: Point, done: set<Point>, queue: seq<Point>, reachable: set<Point>)
    requires Flooding(grid, from, done, queue, reachable) && queue != []
    ensures var f := Fresh(grid, reachable, queue[0], 4);
      Flooding(grid, from, done + {queue[0]}, queue[1..] + f, reachable + Cells(f))
  {
    var cur := queue[0];
    var f := Fresh(grid, reachable, cur, 4);
    assert queue == [cur] + queue[1..];
    CellsAppend([cur], queue[1..]);
    CellsAppend(queue[1..], f);
    ExpandedStep(grid, done, cur, reachable);
    assert Connected(grid, from, cur);
    var k: nat :| Reach(grid, from, cur, k);
    forall q | q in Cells(f) ensures Connected(grid, from, q) {
      FreshFrom(grid, reachable, cur, 4, q);
      var i :| 0 <= i < 4 && Wanted(grid, reachable, cur, i) && q == Step(cur, i);
      ReachStep(grid, from, cur, k, i);
    }
  }

  /** Every connected cell is the start or passable, so the reachable set stays within the
      cells a walk can stand on. */
  lemma ConnectedInside(grid: seq<string>, from: Point, reachable: set<Point>)
    requires forall p :: p in reachable ==> Connected(grid, from, p)
    ensures forall p :: p in reachable ==> p == from || Passable(grid, p)
  {
    forall p | p in reachable ensures p == from || Passable(grid, p) {
      var k: nat :| Reach(grid, from, p, k);
      ReachInside(grid, from, p, k);
    }
  }

  /** `findHonestlyReachablePositions`: the cells a walk from `start` reaches, the start
      included. */
  method FindHonestlyReachablePositions(grid: seq<string>, start: Point) returns (reachable: set<Point>)
    ensures forall p :: p in reachable <==> Connected(grid, start, p)
  {
    reachable := {start};
    var queue := [start];
    ghost var done: set<Point> := {};
    assert Reach(grid, start, start, 0);
    while queue != []
      invariant Flooding(grid, start, done, queue, reachable)
      decreases |Space(grid, start) - reachable|, |queue|
    {
      var current := queue[0];
      FloodStep(grid, start, done, queue, reachable);
      ConnectedInside(grid, start, reachable);
      TurnShrinks(grid, start, current, reachable);
      reachable, queue := ExpandReach(grid, current, reachable, queue[1..]);
      done := done + {current};
    }
    forall p | Connected(grid, start, p) ensures p in reachable {
      var k: nat :| Reach(grid, start, p, k);
      Exhausted(grid, start, done, p, k);
    }
  }
}
