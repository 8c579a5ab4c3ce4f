/** Day 12 (node_runner/src/solved/index.day12.ts and solved_work_Day12): garden plots.
    A region is a 4-connected patch of plots growing the same plant; fencing it costs its
    area times its perimeter (part 1) or its area times its number of sides (part 2). */
module Day12Garden {
  import opened Wrappers
  import opened JsText

  // ---------------------------------------------------------------- the grid

  datatype Point = Point(x: int, y: int)

  /** Rows of plots, one character per plot; rows may differ in length. */
  type Grid = seq<seq<char>>

  /** A region: its plant type and its plots in the order the flood fill reached them. */
  datatype Region = Region(kind: char, points: seq<Point>)

  /** `input.trim().split('\n').map(line => line.split(''))`. */
  function ParseGrid(input: string): (g: Grid)
    ensures |g| >= 1
  {
    Split(Trim(input), "\n")
  }

  predicate IsCell(g: Grid, p: Point) {
    0 <= p.y < |g| && 0 <= p.x < |g[p.y]|
  }

  /** `grid[p.y][p.x]`, or None where that is `undefined`. */
  function Cell(g: Grid, p: Point): (c: Option<char>)
    ensures c.Some? <==> IsCell(g, p)
  {
    if IsCell(g, p) then Some(g[p.y][p.x]) else None
  }

  function Cells(g: Grid): set<Point> {
    set y, x | 0 <= y < |g| && 0 <= x < |g[y]| :: Point(x, y)
  }

  lemma CellsMeaning(g: Grid)
    ensures forall p :: p in Cells(g) <==> IsCell(g, p)
  {
    forall p | IsCell(g, p) ensures p in Cells(g) {
      assert p == Point(p.x, p.y);
    }
  }

  lemma CellIn(g: Grid, p: Point)
    requires IsCell(g, p)
    ensures p in Cells(g)
  {
    assert p == Point(p.x, p.y);
  }

  /** `grid[0].length`. */
  function Width(g: Grid): int {
    if |g| == 0 then 0 else |g[0]|
  }

  /** The bounds test of the neighbour scan: within the first row's width and the
      grid's height. */
  predicate InBox(g: Grid, p: Point) {
    0 <= p.x < Width(g) && 0 <= p.y < |g|
  }

  predicate Adjacent(p: Point, q: Point) {
    (p.x == q.x && (p.y - q.y == 1 || q.y - p.y == 1))
    || (p.y == q.y && (p.x - q.x == 1 || q.x - p.x == 1))
  }

  function Elems(ps: seq<Point>): set<Point> {
    set p | p in ps
  }

  predicate Distinct(ps: seq<Point>) {
    forall i, j :: 0 <= i < j < |ps| ==> ps[i] != ps[j]
  }

  /** Some point of `ps` is adjacent to `q`. */
  predicate Linked(ps: seq<Point>, q: Point) {
    exists j :: 0 <= j < |ps| && Adjacent(ps[j], q)
  }

  /** Every point after the first is adjacent to an earlier one, so all of them are
      reachable from the first by steps between adjacent points of the sequence. */
  predicate Connected(ps: seq<Point>) {
    forall k :: 0 < k < |ps| ==> Linked(ps[..k], ps[k])
  }

  /** A plot the scan from a plot of type `t` may enqueue: inside the box and of type `t`. */
  predicate Joins(g: Grid, t: char, q: Point) {
    InBox(g, q) && Cell(g, q) == Some(t)
  }

  /** No plot of `v` has a neighbour of its own type inside the box that is not in `v`. */
  ghost predicate Closed(g: Grid, v: set<Point>) {
    forall a, b :: a in v && Adjacent(a, b) && InBox(g, b) && Cell(g, b) == Cell(g, a) ==> b in v
  }

  /** What `findRegions` promises of one region: non-empty, one plant type, no plot twice,
      connected, and closed: a same-type neighbour of a plot inside the box is in it too. */
  ghost predicate RegionOk(g: Grid, r: Region) {
    && |r.points| > 0
    && (forall k :: 0 <= k < |r.points| ==> Cell(g, r.points[k]) == Some(r.kind))
    && Distinct(r.points)
    && Connected(r.points)
    && (forall k, q :: (0 <= k < |r.points| && InBox(g, r.points[k]) && Adjacent(r.points[k], q)
                        && Joins(g, r.kind, q)) ==> q in r.points)
  }

  /** The regions split the plots: each is a region, no plot is in two of them, and every
      plot is in one. */
  ghost predicate Partition(g: Grid, rs: seq<Region>) {
    && (forall i :: 0 <= i < |rs| ==> RegionOk(g, rs[i]))
    && (forall i, j :: 0 <= i < j < |rs| ==> Elems(rs[i].points) !! Elems(rs[j].points))
    && (forall p :: IsCell(g, p) <==> exists i :: 0 <= i < |rs| && p in rs[i].points)
  }

  // ---------------------------------------------------------------- the flood fill

  /** The `directions` of the flood fill, in order: left, right, up, down. */
  function FillStep(p: Point, i: nat): Point
    requires i < 4
  {
    match i
    case 0 => Point(p.x - 1, p.y)
    case 1 => Point(p.x + 1, p.y)
    case 2 => Point(p.x, p.y - 1)
    case _ => Point(p.x, p.y + 1)
  }

  lemma FillStepsAdjacent(p: Point, q: Point)
    ensures Adjacent(p, q) <==> exists i :: 0 <= i < 4 && q == FillStep(p, i)
  {
    if Adjacent(p, q) {
      if q.x == p.x - 1 { assert q == FillStep(p, 0); }
      else if q.x == p.x + 1 { assert q == FillStep(p, 1); }
      else if q.y == p.y - 1 { assert q == FillStep(p, 2); }
      else { assert q == FillStep(p, 3); }
    }
  }

  /** What the scan of the first `n` directions around `p` pushes onto the queue. */
  function Pushes(g: Grid, t: char, visited: set<Point>, p: Point, n: nat): seq<Point>
    requires n <= 4
  {
    if n == 0 then []
    else
      var q := FillStep(p, n - 1);
      Pushes(g, t, visited, p, n - 1) + (if Joins(g, t, q) && q !in visited then [q] else [])
  }

  lemma {:induction false} PushesUpTo(g: Grid, t: char, visited: set<Point>, p: Point, n: nat)
    requires n <= 4
    ensures forall q :: q in Pushes(g, t, visited, p, n) <==>
      (exists i :: 0 <= i < n && q == FillStep(p, i)) && Joins(g, t, q) && q !in visited
  {
    if n > 0 {
      PushesUpTo(g, t, visited, p, n - 1);
    }
  }

  /** The neighbour scan pushes exactly the unvisited plots of type `t` inside the box
      that are adjacent to `p`. */
  lemma PushesMeaning(g: Grid, t: char, visited: set<Point>, p: Point)
    ensures forall q :: q in Pushes(g, t, visited, p, 4) <==>
      Adjacent(p, q) && Joins(g, t, q) && q !in visited
  {
    PushesUpTo(g, t, visited, p, 4);
    forall q ensures Adjacent(p, q) <==> exists i :: 0 <= i < 4 && q == FillStep(p, i) {
      FillStepsAdjacent(p, q);
    }
  }

  /** Every neighbour of type `t` of a point taken, inside the box, is taken or queued. */
  ghost predicate Frontier(g: Grid, t: char, points: seq<Point>, visited: set<Point>, queue: seq<Point>) {
    forall k, q :: 0 <= k < |points| && Adjacent(points[k], q) && Joins(g, t, q) ==>
      q in visited || q in queue
  }

  /** The points taken are new, distinct, and are what was added to `visited`. */
  ghost predicate Taken(visited0: set<Point>, points: seq<Point>, visited: set<Point>) {
    && visited == visited0 + Elems(points)
    && (forall p :: p in points ==> p !in visited0)
    && Distinct(points)
  }

  predicate AllOfType(g: Grid, t: char, ps: seq<Point>) {
    forall q :: q in ps ==> Cell(g, q) == Some(t)
  }

  /** The queue starts as `[start]`, and `start` is the first point taken. */
  predicate StartFirst(start: Point, points: seq<Point>, queue: seq<Point>) {
    (points == [] ==> queue == [start]) && (points != [] ==> points[0] == start)
  }

  /** Every queued point is `start` or adjacent to a point taken. */
  predicate QueueLinked(start: Point, points: seq<Point>, queue: seq<Point>) {
    forall q :: q in queue ==> q == start || Linked(points, q)
  }

  /** The state of the flood fill's queue loop. */
  ghost predicate FillState(g: Grid, t: char, start: Point, visited0: set<Point>,
                            points: seq<Point>, visited: set<Point>, queue: seq<Point>)
  {
    && Taken(visited0, points, visited)
    && visited <= Cells(g)
    && AllOfType(g, t, points) && AllOfType(g, t, queue)
    && StartFirst(start, points, queue)
    && Connected(points) && QueueLinked(start, points, queue)
    && Frontier(g, t, points, visited, queue)
  }

  /** The scan of the four directions around `p`, pushing onto `queue`. */
  method PushNeighbours(g: Grid, t: char, visited: set<Point>, p: Point, queue: seq<Point>)
    returns (queue': seq<Point>)
    ensures queue' == queue + Pushes(g, t, visited, p, 4)
  {
    queue' := queue;
    for d := 0 to 4
      invariant queue' == queue + Pushes(g, t, visited, p, d)
    {
      var n := FillStep(p, d);
      if 0 <= n.x && n.x < Width(g) && 0 <= n.y && n.y < |g| && n !in visited
         && Cell(g, n) == Some(t)
      {
        queue' := queue' + [n];
      }
    }
  }

  lemma InTail(queue: seq<Point>, q: Point)
    requires q in queue && q != queue[0]
    ensures q in queue[1..]
  {
    assert queue == [queue[0]] + queue[1..];
  }

  lemma FromTail(queue: seq<Point>, q: Point)
    requires queue != [] && q in queue[1..]
    ensures q in queue
  {
    assert queue == [queue[0]] + queue[1..];
  }

  /** A popped point that is already visited only leaves the queue. */
  lemma SkipStep(g: Grid, t: char, start: Point, visited0: set<Point>,
                 points: seq<Point>, visited: set<Point>, queue: seq<Point>)
    requires queue != [] && queue[0] in visited && start !in visited0
    requires FillState(g, t, start, visited0, points, visited, queue)
    ensures FillState(g, t, start, visited0, points, visited, queue[1..])
  {
    assert Elems([]) == {};
    assert points != [];
    forall q | q in queue[1..] ensures q in queue {
      FromTail(queue, q);
    }
    forall k, q | 0 <= k < |points| && Adjacent(points[k], q) && Joins(g, t, q)
      ensures q in visited || q in queue[1..]
    {
      if q !in visited {
        InTail(queue, q);
      }
    }
  }

  lemma TakeTaken(visited0: set<Point>, points: seq<Point>, visited: set<Point>, p: Point)
    requires Taken(visited0, points, visited) && p !in visited
    ensures Taken(visited0, points + [p], visited + {p})
  {
    assert Elems(points + [p]) == Elems(points) + {p};
  }

  lemma TakeLinked(start: Point, points: seq<Point>, queue: seq<Point>, pushed: seq<Point>)
    requires queue != [] && StartFirst(start, points, queue)
    requires points != [] ==> queue[0] != start
    requires Connected(points) && QueueLinked(start, points, queue)
    requires forall q :: q in pushed ==> Adjacent(queue[0], q)
    ensures var points' := points + [queue[0]];
      StartFirst(start, points', queue[1..] + pushed)
      && Connected(points') && QueueLinked(start, points', queue[1..] + pushed)
  {
    var p := queue[0];
    var points' := points + [p];
    forall k | 0 < k < |points'| ensures Linked(points'[..k], points'[k]) {
      if k < |points| {
        assert points'[..k] == points[..k];
      } else {
        assert points'[..k] == points;
      }
    }
    forall q | q in queue[1..] + pushed ensures q == start || Linked(points', q) {
      if q in pushed {
        assert points'[|points|] == p;
      } else if q != start {
        FromTail(queue, q);
        var j :| 0 <= j < |points| && Adjacent(points[j], q);
        assert points'[j] == points[j];
      }
    }
  }

  lemma TakeFrontier(g: Grid, t: char, points: seq<Point>, visited: set<Point>, queue: seq<Point>)
    requires queue != [] && Frontier(g, t, points, visited, queue)
    ensures var p := queue[0];
      Frontier(g, t, points + [p], visited + {p}, queue[1..] + Pushes(g, t, visited + {p}, p, 4))
  {
    var p := queue[0];
    var points', visited' := points + [p], visited + {p};
    var queue' := queue[1..] + Pushes(g, t, visited', p, 4);
    PushesMeaning(g, t, visited', p);
    forall k, q | 0 <= k < |points'| && Adjacent(points'[k], q) && Joins(g, t, q)
      ensures q in visited' || q in queue'
    {
      if k < |points| && q !in visited' {
        assert points'[k] == points[k];
        InTail(queue, q);
      }
    }
  }

  /** A popped, unvisited point joins the region and its neighbours join the queue. */
  lemma TakeStep(g: Grid, t: char, start: Point, visited0: set<Point>,
                 points: seq<Point>, visited: set<Point>, queue: seq<Point>)
    requires queue != [] && queue[0] !in visited
    requires FillState(g, t, start, visited0, points, visited, queue)
    ensures var p := queue[0];
      FillState(g, t, start, visited0, points + [p], visited + {p},
                queue[1..] + Pushes(g, t, visited + {p}, p, 4))
  {
    var p := queue[0];
    var pushed := Pushes(g, t, visited + {p}, p, 4);
    PushesMeaning(g, t, visited + {p}, p);
    assert Cell(g, p) == Some(t);
    CellIn(g, p);
    TakeTaken(visited0, points, visited, p);
    assert points != [] ==> p != start by {
      if points != [] { assert start in visited; }
    }
    TakeLinked(start, points, queue, pushed);
    TakeFrontier(g, t, points, visited, queue);
    forall q | q in queue[1..] + pushed ensures Cell(g, q) == Some(t) {
      if q !in pushed { FromTail(queue, q); }
    }
  }

  lemma Shrinks<T>(all: set<T>, v: set<T>, p: T)
    requires p in all && p !in v
    ensures |all - (v + {p})| < |all - v|
  {
    var rest := all - (v + {p});
    assert all - v == rest + {p} && p !in rest;
    assert |rest + {p}| == |rest| + 1;
  }

  /** The region grown from `start`, as `findRegions`' queue loop grows it: it is
      `start`'s same-type region, and everything visited stays closed. */
  method FloodFill(g: Grid, start: Point, visited0: set<Point>)
    returns (points: seq<Point>, visited: set<Point>)
    requires IsCell(g, start) && start !in visited0
    requires visited0 <= Cells(g) && Closed(g, visited0)
    ensures visited == visited0 + Elems(points)
    ensures forall p :: p in points ==> p !in visited0
    ensures RegionOk(g, Region(g[start.y][start.x], points)) && points[0] == start
    ensures visited <= Cells(g) && Closed(g, visited)
  {
    var t := g[start.y][start.x];
    points, visited := [], visited0;
    var queue := [start];
    assert Elems(points) == {};
    while |queue| > 0
      invariant FillState(g, t, start, visited0, points, visited, queue)
      decreases |Cells(g) - visited|, |queue|
    {
      var p := queue[0];
      if p !in visited && Cell(g, p) == Some(t) {
        TakeStep(g, t, start, visited0, points, visited, queue);
        CellIn(g, p);
        Shrinks(Cells(g), visited, p);
        visited := visited + {p};
        points := points + [p];
        queue := PushNeighbours(g, t, visited, p, queue[1..]);
      } else {
        SkipStep(g, t, start, visited0, points, visited, queue);
        queue := queue[1..];
      }
    }
    FillDone(g, t, start, visited0, points, visited);
    FillClosed(g, t, visited0, points, visited);
  }

  /** With the queue empty the region is complete. */
  lemma FillDone(g: Grid, t: char, start: Point, visited0: set<Point>,
                 points: seq<Point>, visited: set<Point>)
    requires start !in visited0 && Closed(g, visited0)
    requires FillState(g, t, start, visited0, points, visited, [])
    ensures RegionOk(g, Region(t, points)) && points[0] == start
  {
    assert points != [];
    FillShut(g, t, visited0, points, visited);
  }

  lemma FillShut(g: Grid, t: char, visited0: set<Point>, points: seq<Point>, visited: set<Point>)
    requires Closed(g, visited0) && Taken(visited0, points, visited) && AllOfType(g, t, points)
    requires Frontier(g, t, points, visited, [])
    ensures forall k, q :: (0 <= k < |points| && InBox(g, points[k]) && Adjacent(points[k], q)
                            && Joins(g, t, q)) ==> q in points
  {
    forall k, q | 0 <= k < |points| && InBox(g, points[k]) && Adjacent(points[k], q) && Joins(g, t, q)
      ensures q in points
    {
      assert q in visited;
      ClosedAway(g, visited0, points[k], q);
      assert q in Elems(points);
    }
  }

  /** With the queue empty, what is visited is closed again. */
  lemma FillClosed(g: Grid, t: char, visited0: set<Point>, points: seq<Point>, visited: set<Point>)
    requires Closed(g, visited0) && Taken(visited0, points, visited) && AllOfType(g, t, points)
    requires Frontier(g, t, points, visited, [])
    ensures Closed(g, visited)
  {
    forall a, b | a in visited && Adjacent(a, b) && InBox(g, b) && Cell(g, b) == Cell(g, a)
      ensures b in visited
    {
      if a !in visited0 {
        assert a in Elems(points);
        var k :| 0 <= k < |points| && points[k] == a;
      }
    }
  }

  /** A plot outside a closed set has no same-type neighbour inside it. */
  lemma ClosedAway(g: Grid, v: set<Point>, p: Point, q: Point)
    requires Closed(g, v) && p !in v && InBox(g, p) && Adjacent(p, q)
    requires Cell(g, q) == Cell(g, p)
    ensures q !in v
  {
  }

  // ---------------------------------------------------------------- the regions

  /** The outer loops' state: the regions found so far cover exactly the visited plots,
      are disjoint, and the visited plots are closed. */
  ghost predicate Found(g: Grid, regions: seq<Region>, visited: set<Point>) {
    && visited <= Cells(g) && Closed(g, visited)
    && (forall i :: 0 <= i < |regions| ==> RegionOk(g, regions[i]))
    && (forall i :: 0 <= i < |regions| ==> Elems(regions[i].points) <= visited)
    && (forall p :: p in visited ==> exists i :: 0 <= i < |regions| && p in regions[i].points)
    && (forall i, j :: 0 <= i < j < |regions| ==> Elems(regions[i].points) !! Elems(regions[j].points))
  }

  lemma AddRegion(g: Grid, regions: seq<Region>, visited: set<Point>, r: Region, visited': set<Point>)
    requires Found(g, regions, visited)
    requires RegionOk(g, r) && visited' == visited + Elems(r.points)
    requires forall p :: p in r.points ==> p !in visited
    requires visited' <= Cells(g) && Closed(g, visited')
    ensures Found(g, regions + [r], visited')
  {
    var rs := regions + [r];
    forall i | 0 <= i < |rs| ensures RegionOk(g, rs[i]) && Elems(rs[i].points) <= visited' {
      if i < |regions| { assert rs[i] == regions[i]; }
    }
    forall p | p in visited' ensures exists i :: 0 <= i < |rs| && p in rs[i].points {
      if p in visited {
        var i :| 0 <= i < |regions| && p in regions[i].points;
        assert rs[i] == regions[i];
      } else {
        assert p in rs[|regions|].points;
      }
    }
    forall i, j | 0 <= i < j < |rs| ensures Elems(rs[i].points) !! Elems(rs[j].points) {
      assert rs[i] == regions[i];
      if j == |regions| {
        assert Elems(regions[i].points) <= visited;
      } else {
        assert rs[j] == regions[j];
      }
    }
  }

  lemma FoundAll(g: Grid, regions: seq<Region>, visited: set<Point>)
    requires Found(g, regions, visited)
    requires forall p :: IsCell(g, p) ==> p in visited
    ensures Partition(g, regions)
  {
    CellsMeaning(g);
    forall p | exists i :: 0 <= i < |regions| && p in regions[i].points
      ensures IsCell(g, p)
    {
      var i :| 0 <= i < |regions| && p in regions[i].points;
      assert p in Elems(regions[i].points);
    }
  }

  /** `findRegions`: scan the plots row by row and flood-fill from each unvisited one.
      The regions it returns split the grid into same-type connected, closed regions. */
  method FindRegions(g: Grid) returns (regions: seq<Region>)
    ensures Partition(g, regions)
  {
    regions := [];
    var visited: set<Point> := {};
    var y := 0;
    while y < |g|
      invariant 0 <= y <= |g|
      invariant Found(g, regions, visited)
      invariant forall p :: IsCell(g, p) && p.y < y ==> p in visited
    {
      var x := 0;
      while x < |g[y]|
        invariant 0 <= x <= |g[y]|
        invariant Found(g, regions, visited)
        invariant forall p :: IsCell(g, p) && (p.y < y || (p.y == y && p.x < x)) ==> p in visited
      {
        var key := Point(x, y);
        if key !in visited {
          var kind := g[y][x];
          var points, visited' := FloodFill(g, key, visited);
          if |points| > 0 {
            AddRegion(g, regions, visited, Region(kind, points), visited');
            regions := regions + [Region(kind, points)];
          }
          visited := visited';
        }
        x := x + 1;
      }
      y := y + 1;
    }
    FoundAll(g, regions, visited);
  }

  // ---------------------------------------------------------------- the perimeter

  /** The fence sides `calculatePerimeter` counts for one plot of the region `s`: each of
      its left, top, right and bottom sides that lies on the grid's edge or faces a plot
      outside `s`. */
  function Exposed(g: Grid, s: set<Point>, p: Point): nat {
    (if p.x == 0 || Point(p.x - 1, p.y) !in s then 1 else 0)
    + (if p.y == 0 || Point(p.x, p.y - 1) !in s then 1 else 0)
    + (if p.x == Width(g) - 1 || Point(p.x + 1, p.y) !in s then 1 else 0)
    + (if p.y == |g| - 1 || Point(p.x, p.y + 1) !in s then 1 else 0)
  }

  function ExposedSum(g: Grid, s: set<Point>, ps: seq<Point>): nat {
    if ps == [] then 0 else ExposedSum(g, s, ps[..|ps| - 1]) + Exposed(g, s, ps[|ps| - 1])
  }

  /** The perimeter of a region: the exposed sides summed over its plots. */
  function Perimeter(g: Grid, ps: seq<Point>): nat {
    ExposedSum(g, Elems(ps), ps)
  }

  /** `calculatePerimeter`: the four side tests for every plot of the region. */
  method CalculatePerimeter(points: seq<Point>, g: Grid) returns (perimeter: nat)
    requires points != [] ==> |g| > 0
    ensures perimeter == Perimeter(g, points)
  {
    perimeter := 0;
    var pointSet := Elems(points);
    for i := 0 to |points|
      invariant perimeter == ExposedSum(g, pointSet, points[..i])
    {
      var point := points[i];
      assert points[..i + 1][..i] == points[..i];
      if point.x == 0 || Point(point.x - 1, point.y) !in pointSet {
        perimeter := perimeter + 1;
      }
      if point.y == 0 || Point(point.x, point.y - 1) !in pointSet {
        perimeter := perimeter + 1;
      }
      if point.x == |g[0]| - 1 || Point(point.x + 1, point.y) !in pointSet {
        perimeter := perimeter + 1;
      }
      if point.y == |g| - 1 || Point(point.x, point.y + 1) !in pointSet {
        perimeter := perimeter + 1;
      }
    }
    assert points[..|points|] == points;
  }

  lemma {:induction false} ExposedSumBound(g: Grid, s: set<Point>, ps: seq<Point>)
    ensures ExposedSum(g, s, ps) <= 4 * |ps|
  {
    if ps != [] {
      ExposedSumBound(g, s, ps[..|ps| - 1]);
    }
  }

  /** A region's perimeter is at most four sides per plot. */
  lemma PerimeterBound(g: Grid, ps: seq<Point>)
    ensures Perimeter(g, ps) <= 4 * |ps|
  {
    ExposedSumBound(g, Elems(ps), ps);
  }

  /** The number of the four neighbours of `p` outside `s`. */
  function OutsideNeighbours(s: set<Point>, p: Point): nat {
    (if FillStep(p, 0) !in s then 1 else 0) + (if FillStep(p, 1) !in s then 1 else 0)
    + (if FillStep(p, 2) !in s then 1 else 0) + (if FillStep(p, 3) !in s then 1 else 0)
  }

  /** For a region inside the grid the edge tests change nothing: a plot's exposed sides
      are exactly its neighbours outside the region. */
  lemma ExposedIsOutside(g: Grid, s: set<Point>, p: Point)
    requires forall q :: q in s ==> InBox(g, q)
    ensures Exposed(g, s, p) == OutsideNeighbours(s, p)
  {
    assert p.x == 0 ==> Point(p.x - 1, p.y) !in s;
    assert p.y == 0 ==> Point(p.x, p.y - 1) !in s;
    assert p.x == Width(g) - 1 ==> Point(p.x + 1, p.y) !in s;
    assert p.y == |g| - 1 ==> Point(p.x, p.y + 1) !in s;
  }

  /** A lone plot is fenced on all four sides. */
  lemma LonePlotPerimeter(g: Grid, p: Point)
    ensures Perimeter(g, [p]) == 4
  {
    assert Elems([p]) == {p};
    assert [p][..0] == [];
    assert ExposedSum(g, {p}, [p]) == Exposed(g, {p}, p);
  }

  lemma ExposedSumTwo(g: Grid, s: set<Point>, a: Point, b: Point)
    ensures ExposedSum(g, s, [a, b]) == Exposed(g, s, a) + Exposed(g, s, b)
  {
    assert [a, b][..1] == [a] && [a][..0] == [];
    assert ExposedSum(g, s, [a]) == Exposed(g, s, a);
  }

  /** Two plots side by side inside the grid need six sides of fence. */
  lemma DominoPerimeter(g: Grid, p: Point)
    requires InBox(g, p) && InBox(g, Point(p.x + 1, p.y))
    ensures Perimeter(g, [p, Point(p.x + 1, p.y)]) == 6
  {
    var q := Point(p.x + 1, p.y);
    assert Elems([p, q]) == {p, q};
    ExposedSumTwo(g, {p, q}, p, q);
    assert Exposed(g, {p, q}, p) == 3;
    assert Exposed(g, {p, q}, q) == 3;
  }

  // ---------------------------------------------------------------- the sides

  /** The `directions` of `countSides`, clockwise: north, east, south, west. */
  function Offset(i: nat): (int, int)
    requires i < 4
  {
    match i
    case 0 => (0, -1)
    case 1 => (1, 0)
    case 2 => (0, 1)
    case _ => (-1, 0)
  }

  function Toward(p: Point, i: nat): Point
    requires i < 4
  {
    Point(p.x + Offset(i).0, p.y + Offset(i).1)
  }

  /** The plot between direction `i` and the next one clockwise. */
  function Diagonal(p: Point, i: nat): Point
    requires i < 4
  {
    Point(p.x + Offset(i).0 + Offset((i + 1) % 4).0, p.y + Offset(i).1 + Offset((i + 1) % 4).1)
  }

  /** An exterior corner: both neighbours in directions `i` and `i + 1` are outside. */
  function ExteriorAt(s: set<Point>, p: Point, i: nat): nat
    requires i < 4
  {
    if Toward(p, i) !in s && Toward(p, (i + 1) % 4) !in s then 1 else 0
  }

  /** An elbow: both neighbours are inside but the plot between them is not. */
  function ElbowAt(s: set<Point>, p: Point, i: nat): nat
    requires i < 4
  {
    if Toward(p, i) in s && Toward(p, (i + 1) % 4) in s && Diagonal(p, i) !in s then 1 else 0
  }

  function ExteriorCount(s: set<Point>, p: Point, n: nat): nat
    requires n <= 4
  {
    if n == 0 then 0 else ExteriorCount(s, p, n - 1) + ExteriorAt(s, p, n - 1)
  }

  function ElbowCount(s: set<Point>, p: Point, n: nat): nat
    requires n <= 4
  {
    if n == 0 then 0 else ElbowCount(s, p, n - 1) + ElbowAt(s, p, n - 1)
  }

  /** The corners found at one plot. */
  function Corners(s: set<Point>, p: Point): nat {
    ExteriorCount(s, p, 4) + ElbowCount(s, p, 4)
  }

  function CornerSum(s: set<Point>, ps: seq<Point>): nat {
    if ps == [] then 0 else CornerSum(s, ps[..|ps| - 1]) + Corners(s, ps[|ps| - 1])
  }

  /** The number of sides of a region, counted as its corners. */
  function Sides(ps: seq<Point>): nat {
    CornerSum(Elems(ps), ps)
  }

  /** The body of `countSides`' loop for one plot: the exterior-corner loop and then the
      elbow loop. */
  method PlotCorners(pointSet: set<Point>, point: Point) returns (corners: nat)
    ensures corners == Corners(pointSet, point)
  {
    corners := 0;
    var notInRegion := seq(4, i requires 0 <= i < 4 => Toward(point, i) !in pointSet);
    for i := 0 to 4
      invariant corners == ExteriorCount(pointSet, point, i)
    {
      var current := notInRegion[i];
      var next := notInRegion[(i + 1) % 4];
      if current && next {
        corners := corners + 1;
      }
    }
    ghost var exterior := corners;
    for i := 0 to 4
      invariant corners == exterior + ElbowCount(pointSet, point, i)
    {
      var current := !notInRegion[i];
      var next := !notInRegion[(i + 1) % 4];
      if current && next {
        var dx := Offset(i).0 + Offset((i + 1) % 4).0;
        var dy := Offset(i).1 + Offset((i + 1) % 4).1;
        if Point(point.x + dx, point.y + dy) !in pointSet {
          corners := corners + 1;
        }
      }
    }
  }

  /** `countSides`: the corners summed over the region's plots. */
  method CountSides(points: seq<Point>) returns (corners: nat)
    ensures corners == Sides(points)
  {
    var pointSet := Elems(points);
    corners := 0;
    for k := 0 to |points|
      invariant corners == CornerSum(pointSet, points[..k])
    {
      assert points[..k + 1][..k] == points[..k];
      var found := PlotCorners(pointSet, points[k]);
      corners := corners + found;
    }
    assert points[..|points|] == points;
  }

  lemma {:induction false} CornerCountsBound(s: set<Point>, p: Point, n: nat)
    requires n <= 4
    ensures ExteriorCount(s, p, n) + ElbowCount(s, p, n) <= n
  {
    if n > 0 {
      CornerCountsBound(s, p, n - 1);
    }
  }

  lemma {:induction false} CornerSumBound(s: set<Point>, ps: seq<Point>)
    ensures CornerSum(s, ps) <= 4 * |ps|
  {
    if ps != [] {
      CornerSumBound(s, ps[..|ps| - 1]);
      CornerCountsBound(s, ps[|ps| - 1], 4);
    }
  }

  /** Each plot adds at most four corners: an exterior corner and an elbow never share a
      direction pair. */
  lemma SidesBound(ps: seq<Point>)
    ensures Sides(ps) <= 4 * |ps|
  {
    CornerSumBound(Elems(ps), ps);
  }

  lemma Around(p: Point)
    ensures Toward(p, 0) == Point(p.x, p.y - 1) && Toward(p, 1) == Point(p.x + 1, p.y)
    ensures Toward(p, 2) == Point(p.x, p.y + 1) && Toward(p, 3) == Point(p.x - 1, p.y)
    ensures Diagonal(p, 0) == Point(p.x + 1, p.y - 1) && Diagonal(p, 1) == Point(p.x + 1, p.y + 1)
    ensures Diagonal(p, 2) == Point(p.x - 1, p.y + 1) && Diagonal(p, 3) == Point(p.x - 1, p.y - 1)
  {
  }

  lemma CornersUnfold(s: set<Point>, p: Point)
    ensures Corners(s, p) == ExteriorAt(s, p, 0) + ExteriorAt(s, p, 1) + ExteriorAt(s, p, 2)
      + ExteriorAt(s, p, 3) + ElbowAt(s, p, 0) + ElbowAt(s, p, 1) + ElbowAt(s, p, 2) + ElbowAt(s, p, 3)
  {
    assert ExteriorCount(s, p, 1) == ExteriorAt(s, p, 0);
    assert ExteriorCount(s, p, 2) == ExteriorCount(s, p, 1) + ExteriorAt(s, p, 1);
    assert ExteriorCount(s, p, 3) == ExteriorCount(s, p, 2) + ExteriorAt(s, p, 2);
    assert ExteriorCount(s, p, 4) == ExteriorCount(s, p, 3) + ExteriorAt(s, p, 3);
    assert ElbowCount(s, p, 1) == ElbowAt(s, p, 0);
    assert ElbowCount(s, p, 2) == ElbowCount(s, p, 1) + ElbowAt(s, p, 1);
    assert ElbowCount(s, p, 3) == ElbowCount(s, p, 2) + ElbowAt(s, p, 2);
    assert ElbowCount(s, p, 4) == ElbowCount(s, p, 3) + ElbowAt(s, p, 3);
  }

  /** A lone plot has four sides. */
  lemma LonePlotSides(p: Point)
    ensures Sides([p]) == 4
  {
    assert Elems([p]) == {p};
    assert [p][..0] == [];
    CornersUnfold({p}, p);
    Around(p);
    assert CornerSum({p}, [p]) == Corners({p}, p);
  }

  /** Two plots side by side still have four sides. */
  lemma DominoSides(p: Point)
    ensures Sides([p, Point(p.x + 1, p.y)]) == 4
  {
    var q := Point(p.x + 1, p.y);
    var s := {p, q};
    assert Elems([p, q]) == s;
    assert [p, q][..1] == [p] && [p][..0] == [];
    CornersUnfold(s, p);
    CornersUnfold(s, q);
    Around(p);
    Around(q);
    assert CornerSum(s, [p]) == Corners(s, p) == 2;
    assert CornerSum(s, [p, q]) == 2 + Corners(s, q);
  }

  lemma CornerSumThree(s: set<Point>, a: Point, b: Point, c: Point)
    ensures CornerSum(s, [a, b, c]) == Corners(s, a) + Corners(s, b) + Corners(s, c)
  {
    assert [a, b, c][..2] == [a, b] && [a, b][..1] == [a] && [a][..0] == [];
    assert CornerSum(s, [a]) == Corners(s, a);
    assert CornerSum(s, [a, b]) == CornerSum(s, [a]) + Corners(s, b);
  }

  /** The L of `ElbowSides`: a corner plot with one plot east of it and one south. */
  function Ell(p: Point): set<Point> {
    {p, Point(p.x + 1, p.y), Point(p.x, p.y + 1)}
  }

  lemma EllCorner(p: Point)
    ensures Corners(Ell(p), p) == 2
  {
    CornersUnfold(Ell(p), p);
    Around(p);
  }

  lemma EllEast(p: Point)
    ensures Corners(Ell(p), Point(p.x + 1, p.y)) == 2
  {
    var q := Point(p.x + 1, p.y);
    CornersUnfold(Ell(p), q);
    Around(q);
  }

  lemma EllSouth(p: Point)
    ensures Corners(Ell(p), Point(p.x, p.y + 1)) == 2
  {
    var r := Point(p.x, p.y + 1);
    CornersUnfold(Ell(p), r);
    Around(r);
  }

  /** Three plots in an L have six sides: the elbow adds the two inner ones. */
  lemma ElbowSides(p: Point)
    ensures Sides([p, Point(p.x + 1, p.y), Point(p.x, p.y + 1)]) == 6
  {
    var q, r := Point(p.x + 1, p.y), Point(p.x, p.y + 1);
    assert Elems([p, q, r]) == Ell(p);
    CornerSumThree(Ell(p), p, q, r);
    EllCorner(p);
    EllEast(p);
    EllSouth(p);
  }

  // ---------------------------------------------------------------- the prices

  /** How a region's fence is measured: by its perimeter (part 1), by its sides (part 2),
      or by the `countSides` stub of solved_work_Day12, which always returns 0. */
  datatype Fence = ByPerimeter | BySides | ByStub

  function Fencing(g: Grid, ps: seq<Point>, f: Fence): nat {
    match f
    case ByPerimeter => Perimeter(g, ps)
    case BySides => Sides(ps)
    case ByStub => 0
  }

  /** One region's price: its area times its fence. */
  function Cost(g: Grid, r: Region, f: Fence): nat {
    |r.points| * Fencing(g, r.points, f)
  }

  /** The total price, summed over the regions. */
  function Price(g: Grid, rs: seq<Region>, f: Fence): nat {
    if rs == [] then 0 else Price(g, rs[..|rs| - 1], f) + Cost(g, rs[|rs| - 1], f)
  }

  /** The fence of one region, as each solver measures it. */
  method MeasureFence(g: Grid, points: seq<Point>, f: Fence) returns (fence: nat)
    requires points != [] ==> |g| > 0
    ensures fence == Fencing(g, points, f)
  {
    match f {
      case ByPerimeter => fence := CalculatePerimeter(points, g);
      case BySides => fence := CountSides(points);
      case ByStub => fence := 0;
    }
  }

  /** The `regions.forEach` loop of the solvers: area times fence for each region. */
  method TotalPrice(g: Grid, regions: seq<Region>, f: Fence) returns (totalValue: nat)
    requires regions != [] ==> |g| > 0
    ensures totalValue == Price(g, regions, f)
  {
    totalValue := 0;
    for i := 0 to |regions|
      invariant totalValue == Price(g, regions[..i], f)
    {
      assert regions[..i + 1][..i] == regions[..i];
      var region := regions[i];
      var area := |region.points|;
      var fence := MeasureFence(g, region.points, f);
      assert area * fence == Cost(g, region, f);
      totalValue := totalValue + area * fence;
    }
    assert regions[..|regions|] == regions;
  }

  /** With the stub `countSides` every price is 0. */
  lemma {:induction false} StubPriceZero(g: Grid, rs: seq<Region>)
    ensures Price(g, rs, ByStub) == 0
  {
    if rs != [] {
      StubPriceZero(g, rs[..|rs| - 1]);
    }
  }

  function Square(n: nat): nat {
    n * n
  }

  function AreaSquares(rs: seq<Region>): nat {
    if rs == [] then 0 else AreaSquares(rs[..|rs| - 1]) + Square(|rs[|rs| - 1].points|)
  }

  /** A region costs at most 4·area², since its fence has at most four sides per plot. */
  lemma CostBound(g: Grid, r: Region, f: Fence)
    ensures Cost(g, r, f) <= 4 * Square(|r.points|)
  {
    PerimeterBound(g, r.points);
    SidesBound(r.points);
    var n, m := |r.points|, Fencing(g, r.points, f);
    assert m <= 4 * n;
    MulMono(n, m, 4 * n);
  }

  lemma MulMono(n: nat, a: nat, b: nat)
    requires a <= b
    ensures n * a <= n * b
  {
  }

  lemma {:induction false} PriceBound(g: Grid, rs: seq<Region>, f: Fence)
    ensures Price(g, rs, f) <= 4 * AreaSquares(rs)
  {
    if rs != [] {
      PriceBound(g, rs[..|rs| - 1], f);
      CostBound(g, rs[|rs| - 1], f);
    }
  }

  /** `solve_pt1`: the regions' areas times their perimeters, summed. */
  method SolvePt1(input: string) returns (total: nat, ghost regions: seq<Region>)
    ensures Partition(ParseGrid(input), regions)
    ensures total == Price(ParseGrid(input), regions, ByPerimeter)
  {
    var grid := ParseGrid(input);
    var found := FindRegions(grid);
    regions := found;
    total := TotalPrice(grid, found, ByPerimeter);
  }

  /** `solve_pt2`: the regions' areas times their numbers of sides, summed. */
  method SolvePt2(input: string) returns (total: nat, ghost regions: seq<Region>)
    ensures Partition(ParseGrid(input), regions)
    ensures total == Price(ParseGrid(input), regions, BySides)
  {
    var grid := ParseGrid(input);
    var found := FindRegions(grid);
    regions := found;
    total := TotalPrice(grid, found, BySides);
  }

  /** `solve_pt2` of solved_work_Day12, whose `countSides` is a stub: always 0. */
  method SolvePt2Stub(input: string) returns (total: nat)
    ensures total == 0
  {
    var grid := ParseGrid(input);
    var regions := FindRegions(grid);
    total := TotalPrice(grid, regions, ByStub);
    StubPriceZero(grid, regions);
  }
}
