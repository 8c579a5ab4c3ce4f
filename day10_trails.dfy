/** Day 10 of 2024 (node_runner/src/solved/index.day10.ts): a topographic map of single
    digit heights. A hiking trail starts at a height-0 cell (a trailhead) and climbs by
    exactly one at each orthogonal step; it ends at height 9. Part 1 sums, over the
    trailheads, the number of height-9 cells each can reach; part 2 sums the number of
    distinct trails from each. The text keys `"row,col"` of the source's sets are
    modelled by the points themselves. */
module Day10Trails {
  import opened Wrappers
  import opened JsText

  datatype Point = Point(row: int, col: int)

  /** A cell's height is `Number` of its character: `None` stands for NaN. */
  type Grid = seq<seq<Option<int>>>

  // ---------------------------------------------------------------- the map

  /** `Number(c)` of one character of a trimmed line: blank text is 0, a digit is its
      value, anything else is NaN. */
  function CellHeight(c: char): (h: Option<int>)
    ensures h == JsNumber([c])
    ensures h.Some? ==> 0 <= h.value <= 9
  {
    if IsJsWhitespace(c) then
      assert TrimStart([c]) == [];
      Some(0)
    else
      TrimSolid([c]);
      if IsDigit(c) then
        assert UnsignedPart([c]) == [c] && AllDigits([c]);
        assert DecimalValue([c]) == DigitValue(c) by {
          assert [c][..0] == [];
        }
        Some(DigitValue(c))
      else
        assert UnsignedPart([c]) == [] || !AllDigits(UnsignedPart([c])) by {
          if c == '+' || c == '-' {
            assert [c][1..] == [];
          } else {
            assert UnsignedPart([c]) == [c] && !IsDigit([c][0]);
          }
        }
        None
  }

  /** One row: the trimmed line, character by character. */
  function ParseRow(line: string): (row: seq<Option<int>>)
    ensures |row| == |Trim(line)|
    ensures forall i :: 0 <= i < |row| ==> row[i] == CellHeight(Trim(line)[i])
  {
    var t := Trim(line);
    seq(|t|, i requires 0 <= i < |t| => CellHeight(t[i]))
  }

  /** Every height of the map is NaN or a digit 0 to 9. */
  predicate DigitHeights(grid: Grid) {
    forall r, c :: 0 <= r < |grid| && 0 <= c < |grid[r]| && grid[r][c].Some? ==> 0 <= grid[r][c].value <= 9
  }

  /** `parseGrid`: the trimmed input's lines, each trimmed and read cell by cell. The map
      has at least one row, and its heights are NaN or digits. */
  function ParseGrid(input: string): (grid: Grid)
    ensures |grid| == |Split(Trim(input), "\n")| >= 1
    ensures forall r :: 0 <= r < |grid| ==> grid[r] == ParseRow(Split(Trim(input), "\n")[r])
    ensures DigitHeights(grid)
  {
    var lines := Split(Trim(input), "\n");
    seq(|lines|, r requires 0 <= r < |lines| => ParseRow(lines[r]))
  }

  /** The width of the map is that of its first row. */
  function Width(grid: Grid): nat {
    if grid == [] then 0 else |grid[0]|
  }

  /** `isValid`: inside the rows, and inside the first row's width. */
  predicate IsValid(grid: Grid, p: Point) {
    0 <= p.row < |grid| && 0 <= p.col < Width(grid)
  }

  /** The cells `isValid` accepts. */
  function ValidCells(grid: Grid): set<Point> {
    set r, c | 0 <= r < |grid| && 0 <= c < Width(grid) :: Point(r, c)
  }

  /** The height at a point; a cell past the end of a shorter row reads as `undefined`,
      which like NaN equals nothing and gives NaN when one is added. */
  function Height(grid: Grid, p: Point): Option<int> {
    if 0 <= p.row < |grid| && 0 <= p.col < |grid[p.row]| then grid[p.row][p.col] else None
  }

  // ---------------------------------------------------------------- trailheads

  /** The height-0 cells among the first `n` cells of row `row`, left to right. */
  function RowHeads(grid: Grid, row: int, n: nat): (r: seq<Point>)
    ensures forall i :: 0 <= i < |r| ==> r[i].row == row && 0 <= r[i].col < n && Height(grid, r[i]) == Some(0)
    ensures forall i, j :: 0 <= i < j < |r| ==> r[i].col < r[j].col
  {
    if n == 0 then []
    else RowHeads(grid, row, n - 1) + (if Height(grid, Point(row, n - 1)) == Some(0) then [Point(row, n - 1)] else [])
  }

  /** The trailheads of the first `m` rows in row-major order. */
  function HeadsBefore(grid: Grid, m: nat): (r: seq<Point>)
    ensures forall i :: 0 <= i < |r| ==> 0 <= r[i].row < m
  {
    if m == 0 then [] else HeadsBefore(grid, m - 1) + RowHeads(grid, m - 1, Width(grid))
  }

  /** What `findTrailheads` returns. */
  function Trailheads(grid: Grid): seq<Point> {
    HeadsBefore(grid, |grid|)
  }

  /** `p` comes before `q` in row-major order. */
  predicate RowMajorBefore(p: Point, q: Point) {
    p.row < q.row || (p.row == q.row && p.col < q.col)
  }

  /** Each point of `s` comes before the later ones in row-major order. */
  predicate RowMajorSorted(s: seq<Point>) {
    forall i, j :: 0 <= i < j < |s| ==> RowMajorBefore(s[i], s[j])
  }

  lemma {:induction false} RowHeadsMeaning(grid: Grid, row: int, n: nat, p: Point)
    ensures p in RowHeads(grid, row, n) <==> p.row == row && 0 <= p.col < n && Height(grid, p) == Some(0)
  {
    if n > 0 {
      RowHeadsMeaning(grid, row, n - 1, p);
    }
  }

  lemma {:induction false} HeadsBeforeMeaning(grid: Grid, m: nat, p: Point)
    ensures p in HeadsBefore(grid, m) <==> 0 <= p.row < m && 0 <= p.col < Width(grid) && Height(grid, p) == Some(0)
  {
    if m > 0 {
      HeadsBeforeMeaning(grid, m - 1, p);
      RowHeadsMeaning(grid, m - 1, Width(grid), p);
    }
  }

  lemma {:induction false} HeadsBeforeOrdered(grid: Grid, m: nat)
    ensures RowMajorSorted(HeadsBefore(grid, m))
  {
    if m > 0 {
      HeadsBeforeOrdered(grid, m - 1);
      var a, b := HeadsBefore(grid, m - 1), RowHeads(grid, m - 1, Width(grid));
      var r := a + b;
      forall i, j | 0 <= i < j < |r| ensures RowMajorBefore(r[i], r[j]) {
        if j < |a| {
          assert r[i] == a[i] && r[j] == a[j];
        } else if i < |a| {
          assert r[i] == a[i] && r[j] == b[j - |a|];
          assert a[i].row < m - 1 && b[j - |a|].row == m - 1;
        } else {
          assert r[i] == b[i - |a|] && r[j] == b[j - |a|];
          assert b[i - |a|].row == b[j - |a|].row && b[i - |a|].col < b[j - |a|].col;
        }
      }
    }
  }

  /** The trailheads are exactly the cells of the map at height 0, each once, in
      row-major order. */
  lemma TrailheadsMeaning(grid: Grid)
    ensures forall p :: p in Trailheads(grid) <==> IsValid(grid, p) && Height(grid, p) == Some(0)
    ensures RowMajorSorted(Trailheads(grid))
  {
    forall p ensures p in Trailheads(grid) <==> IsValid(grid, p) && Height(grid, p) == Some(0) {
      HeadsBeforeMeaning(grid, |grid|, p);
    }
    HeadsBeforeOrdered(grid, |grid|);
    assert Trailheads(grid) == HeadsBefore(grid, |grid|);
  }

  /** The cell loop of one row of `findTrailheads`. */
  method ScanRow(heads: seq<Point>, grid: Grid, row: int) returns (r: seq<Point>)
    requires 0 <= row < |grid|
    ensures r == heads + RowHeads(grid, row, Width(grid))
  {
    r := heads;
    for col := 0 to Width(grid)
      invariant r == heads + RowHeads(grid, row, col)
    {
      if col < |grid[row]| && grid[row][col] == Some(0) {
        r := r + [Point(row, col)];
      }
    }
  }

  /** `findTrailheads`: rows top to bottom, each as wide as the first row. */
  method FindTrailheads(grid: Grid) returns (trailheads: seq<Point>)
    ensures trailheads == Trailheads(grid)
  {
    trailheads := [];
    for row := 0 to |grid|
      invariant trailheads == HeadsBefore(grid, row)
    {
      trailheads := ScanRow(trailheads, grid, row);
    }
  }

  // ---------------------------------------------------------------- neighbours

  /** The four orthogonal steps, in the order of `directions`: up, down, left, right. */
  function Candidates(p: Point): seq<Point> {
    [Point(p.row - 1, p.col), Point(p.row + 1, p.col), Point(p.row, p.col - 1), Point(p.row, p.col + 1)]
  }

  /** `q` is one orthogonal step from `p`. */
  predicate Adjacent(p: Point, q: Point) {
    (q.row == p.row && (q.col == p.col - 1 || q.col == p.col + 1))
    || (q.col == p.col && (q.row == p.row - 1 || q.row == p.row + 1))
  }

  /** `q` is exactly one higher than `p`; with NaN (or `undefined`) on either side the
      `===` test fails. */
  predicate Climbs(grid: Grid, p: Point, q: Point) {
    Height(grid, p).Some? && Height(grid, q) == Some(Height(grid, p).value + 1)
  }

  /** The candidates that pass the `filter`, in order. */
  function KeepClimbs(grid: Grid, p: Point, cs: seq<Point>): (r: seq<Point>)
    ensures |r| <= |cs|
  {
    if cs == [] then []
    else (if IsValid(grid, cs[0]) && Climbs(grid, p, cs[0]) then [cs[0]] else []) + KeepClimbs(grid, p, cs[1..])
  }

  lemma {:induction false} KeepClimbsMeaning(grid: Grid, p: Point, cs: seq<Point>, q: Point)
    ensures q in KeepClimbs(grid, p, cs) <==> q in cs && IsValid(grid, q) && Climbs(grid, p, q)
  {
    if cs != [] {
      KeepClimbsMeaning(grid, p, cs[1..], q);
      assert cs == [cs[0]] + cs[1..];
    }
  }

  /** `getNeighbors`: the steps up, down, left and right that stay on the map and climb
      by exactly one. */
  function Neighbors(grid: Grid, p: Point): (r: seq<Point>)
    ensures |r| <= 4
  {
    KeepClimbs(grid, p, Candidates(p))
  }

  /** The neighbours are exactly the cells of the map one step away and one higher. */
  lemma NeighborsMeaning(grid: Grid, p: Point, q: Point)
    ensures q in Neighbors(grid, p) <==> IsValid(grid, q) && Adjacent(p, q) && Climbs(grid, p, q)
  {
    KeepClimbsMeaning(grid, p, Candidates(p), q);
  }

  // ---------------------------------------------------------------- part 1: reachable peaks

  /** A walk that climbs one step at a time and does not go on past a height-9 cell. */
  predicate IsTrail(grid: Grid, path: seq<Point>) {
    |path| >= 1
    && forall i :: 0 <= i < |path| - 1 ==> Height(grid, path[i]) != Some(9) && path[i + 1] in Neighbors(grid, path[i])
  }

  /** Some trail leads from `s` to `p`. */
  ghost predicate Reachable(grid: Grid, s: Point, p: Point) {
    exists path :: IsTrail(grid, path) && path[0] == s && path[|path| - 1] == p
  }

  /** The height-9 cells a trail from `s` reaches: the score of `s`. */
  ghost function Peaks(grid: Grid, s: Point): set<Point> {
    set p | p in ValidCells(grid) && Height(grid, p) == Some(9) && Reachable(grid, s, p)
  }

  lemma ReachSelf(grid: Grid, s: Point)
    ensures Reachable(grid, s, s)
  {
    assert IsTrail(grid, [s]);
  }

  lemma ReachStep(grid: Grid, s: Point, c: Point, n: Point)
    requires Reachable(grid, s, c) && Height(grid, c) != Some(9) && n in Neighbors(grid, c)
    ensures Reachable(grid, s, n)
  {
    var path :| IsTrail(grid, path) && path[0] == s && path[|path| - 1] == c;
    var path' := path + [n];
    assert path'[|path| - 1] == c;
    assert IsTrail(grid, path');
  }

  /** Trails from a cell of the map stay on the map. */
  lemma ReachValid(grid: Grid, s: Point, p: Point)
    requires IsValid(grid, s) && Reachable(grid, s, p)
    ensures IsValid(grid, p)
  {
    var path :| IsTrail(grid, path) && path[0] == s && path[|path| - 1] == p;
    if |path| > 1 {
      var k := |path| - 2;
      NeighborsMeaning(grid, path[k], p);
    }
  }

  /** Every cell of `from` that is not a peak has its neighbours in `into` or on the
      stack. */
  predicate ClosedInto(grid: Grid, from: set<Point>, into: set<Point>, stack: seq<Point>) {
    forall v, n :: v in from && Height(grid, v) != Some(9) && n in Neighbors(grid, v) ==> n in into || n in stack
  }

  /** Every visited cell that is not a peak has its neighbours visited or still on the
      stack. */
  predicate ClosedBy(grid: Grid, visited: set<Point>, stack: seq<Point>) {
    ClosedInto(grid, visited, visited, stack)
  }

  /** A set closed under climbing steps holds the end of every trail that starts in it. */
  lemma {:induction false} ClosedHoldsTrail(grid: Grid, visited: set<Point>, path: seq<Point>)
    requires ClosedBy(grid, visited, []) && IsTrail(grid, path) && path[0] in visited
    ensures path[|path| - 1] in visited
  {
    if |path| > 1 {
      var init := path[..|path| - 1];
      assert IsTrail(grid, init) by {
        forall i | 0 <= i < |init| - 1
          ensures Height(grid, init[i]) != Some(9) && init[i + 1] in Neighbors(grid, init[i])
        {
          assert init[i] == path[i] && init[i + 1] == path[i + 1];
        }
      }
      ClosedHoldsTrail(grid, visited, init);
      var k := |path| - 2;
      assert path[k] == init[|init| - 1];
    }
  }

  /** Every cell on the stack is a cell of the map that a trail from `start` reaches. */
  ghost predicate StackReached(grid: Grid, start: Point, stack: seq<Point>) {
    forall i :: 0 <= i < |stack| ==> IsValid(grid, stack[i]) && Reachable(grid, start, stack[i])
  }

  /** Every visited cell is a cell of the map that a trail from `start` reaches. */
  ghost predicate VisitedReached(grid: Grid, start: Point, visited: set<Point>) {
    forall v :: v in visited ==> IsValid(grid, v) && Reachable(grid, start, v)
  }

  /** The peaks found are the visited cells of height 9. */
  ghost predicate PeaksOf(grid: Grid, visited: set<Point>, peaks: set<Point>) {
    forall v :: v in peaks <==> v in visited && Height(grid, v) == Some(9)
  }

  /** The loop state of `findPeaks`. */
  ghost predicate SearchInvariant(grid: Grid, start: Point, visited: set<Point>, stack: seq<Point>, peaks: set<Point>) {
    StackReached(grid, start, stack) && VisitedReached(grid, start, visited)
    && (start in visited || start in stack)
    && ClosedBy(grid, visited, stack) && PeaksOf(grid, visited, peaks)
  }

  /** Visiting a new cell of the map leaves fewer cells unvisited. */
  lemma FewerUnvisited(grid: Grid, visited: set<Point>, c: Point)
    requires IsValid(grid, c) && c !in visited
    ensures |ValidCells(grid) - (visited + {c})| < |ValidCells(grid) - visited|
  {
    var cells := ValidCells(grid);
    var unvisited := cells - visited;
    assert c in unvisited;
    assert cells - (visited + {c}) == unvisited - {c};
  }

  /** The `for...of` loop that pushes each neighbour in turn. */
  method PushAll(stack: seq<Point>, neighbors: seq<Point>) returns (r: seq<Point>)
    ensures r == stack + neighbors
  {
    r := stack;
    for k := 0 to |neighbors|
      invariant r == stack + neighbors[..k]
    {
      r := r + [neighbors[k]];
    }
    assert neighbors[..|neighbors|] == neighbors;
  }

  /** `findPeaks` with its default fresh `visited`: a depth-first search from `start`
      with an explicit stack; the peaks found are exactly the height-9 cells some trail
      from `start` reaches. */
  method FindPeaks(grid: Grid, start: Point) returns (peaks: set<Point>)
    requires IsValid(grid, start)
    ensures peaks == Peaks(grid, start)
  {
    peaks := {};
    var visited: set<Point> := {};
    var stack := [start];
    ReachSelf(grid, start);
    while |stack| > 0
      invariant SearchInvariant(grid, start, visited, stack, peaks)
      decreases |ValidCells(grid) - visited|, |stack|
    {
      var current := stack[|stack| - 1];
      ghost var full := stack;
      stack := stack[..|stack| - 1];
      if current in visited {
        PopVisited(grid, start, visited, full, peaks);
        continue;
      }
      FewerUnvisited(grid, visited, current);
      if Height(grid, current) == Some(9) {
        PopPeak(grid, start, visited, full, peaks);
        visited := visited + {current};
        peaks := peaks + {current};
        continue;
      }
      PopFresh(grid, start, visited, full, peaks);
      visited := visited + {current};
      var neighbors := Neighbors(grid, current);
      PushStep(grid, start, visited, stack, current, neighbors, peaks);
      stack := PushAll(stack, neighbors);
    }
    SearchDone(grid, start, visited, peaks);
  }

  /** The loop state between visiting `c` and pushing its neighbours: every visited cell
      but `c` is closed. */
  ghost predicate PartialInvariant(grid: Grid, start: Point, visited: set<Point>, stack: seq<Point>, peaks: set<Point>, c: Point) {
    StackReached(grid, start, stack) && VisitedReached(grid, start, visited)
    && (start in visited || start in stack)
    && ClosedInto(grid, visited - {c}, visited, stack) && PeaksOf(grid, visited, peaks)
  }

  /** What popping the top `c` of the stack leaves: `c` is a reachable cell of the map,
      the rest of the stack is as before, and what was closed into the stack is closed
      into the rest together with `c`. */
  lemma PopFacts(grid: Grid, start: Point, visited: set<Point>, stack: seq<Point>, peaks: set<Point>)
    requires |stack| > 0 && SearchInvariant(grid, start, visited, stack, peaks)
    ensures var c, rest := stack[|stack| - 1], stack[..|stack| - 1];
      IsValid(grid, c) && Reachable(grid, start, c) && StackReached(grid, start, rest)
      && (start in visited + {c} || start in rest)
      && ClosedInto(grid, visited, visited + {c}, rest)
  {
    var c, rest := stack[|stack| - 1], stack[..|stack| - 1];
    assert stack == rest + [c];
    assert forall i :: 0 <= i < |rest| ==> rest[i] == stack[i];
    assert forall n :: n in stack ==> n in rest || n == c;
  }

  /** A cell popped a second time is dropped. */
  lemma PopVisited(grid: Grid, start: Point, visited: set<Point>, stack: seq<Point>, peaks: set<Point>)
    requires |stack| > 0 && SearchInvariant(grid, start, visited, stack, peaks) && stack[|stack| - 1] in visited
    ensures SearchInvariant(grid, start, visited, stack[..|stack| - 1], peaks)
  {
    PopFacts(grid, start, visited, stack, peaks);
    assert visited + {stack[|stack| - 1]} == visited;
  }

  /** A peak popped for the first time is visited and recorded. */
  lemma PopPeak(grid: Grid, start: Point, visited: set<Point>, stack: seq<Point>, peaks: set<Point>)
    requires |stack| > 0 && SearchInvariant(grid, start, visited, stack, peaks)
    requires stack[|stack| - 1] !in visited && Height(grid, stack[|stack| - 1]) == Some(9)
    ensures var c := stack[|stack| - 1];
      SearchInvariant(grid, start, visited + {c}, stack[..|stack| - 1], peaks + {c})
  {
    PopFacts(grid, start, visited, stack, peaks);
  }

  /** Any other cell popped for the first time is visited and waits for its neighbours. */
  lemma PopFresh(grid: Grid, start: Point, visited: set<Point>, stack: seq<Point>, peaks: set<Point>)
    requires |stack| > 0 && SearchInvariant(grid, start, visited, stack, peaks)
    requires stack[|stack| - 1] !in visited && Height(grid, stack[|stack| - 1]) != Some(9)
    ensures var c := stack[|stack| - 1];
      PartialInvariant(grid, start, visited + {c}, stack[..|stack| - 1], peaks, c)
  {
    PopFacts(grid, start, visited, stack, peaks);
    var c := stack[|stack| - 1];
    assert (visited + {c}) - {c} == visited;
  }

  /** Pushing the neighbours of a visited non-peak closes it again. */
  lemma PushStep(grid: Grid, start: Point, visited: set<Point>, stack: seq<Point>, c: Point, neighbors: seq<Point>, peaks: set<Point>)
    requires PartialInvariant(grid, start, visited, stack, peaks, c)
    requires c in visited && Height(grid, c) != Some(9) && Reachable(grid, start, c) && neighbors == Neighbors(grid, c)
    ensures SearchInvariant(grid, start, visited, stack + neighbors, peaks)
  {
    var stack' := stack + neighbors;
    forall i | 0 <= i < |stack'| ensures IsValid(grid, stack'[i]) && Reachable(grid, start, stack'[i]) {
      if i >= |stack| {
        var n := neighbors[i - |stack|];
        NeighborsMeaning(grid, c, n);
        ReachStep(grid, start, c, n);
      } else {
        assert stack'[i] == stack[i];
      }
    }
  }

  /** With the stack empty, the visited cells are closed and so hold every cell some
      trail reaches. */
  lemma SearchDone(grid: Grid, start: Point, visited: set<Point>, peaks: set<Point>)
    requires IsValid(grid, start) && SearchInvariant(grid, start, visited, [], peaks)
    ensures peaks == Peaks(grid, start)
  {
    forall p ensures p in peaks <==> p in Peaks(grid, start) {
      if p in Peaks(grid, start) {
        var path :| IsTrail(grid, path) && path[0] == start && path[|path| - 1] == p;
        ClosedHoldsTrail(grid, visited, path);
      }
      if p in peaks {
        assert IsValid(grid, p);
      }
    }
  }

  // ---------------------------------------------------------------- part 2: distinct trails

  /** The number of trails from `p` to a height-9 cell, as `countUniquePaths` counts them:
      a neighbour already in `seen` is skipped. Every call is for a cell not yet seen, so
      each call sees one more cell of the map. */
  function PathsAvoiding(grid: Grid, p: Point, seen: set<Point>): nat
    requires IsValid(grid, p) && p !in seen
    decreases |ValidCells(grid) - seen|, 0, 0
  {
    if Height(grid, p) == Some(9) then 1
    else
      FewerUnvisited(grid, seen, p);
      NeighborsValid(grid, p);
      SumAvoiding(grid, Neighbors(grid, p), seen + {p})
  }

  /** The sum over the neighbours `ns` not in `seen`. */
  function SumAvoiding(grid: Grid, ns: seq<Point>, seen: set<Point>): nat
    requires forall n :: n in ns ==> IsValid(grid, n)
    decreases |ValidCells(grid) - seen|, 1, |ns|
  {
    if ns == [] then 0
    else
      var k := |ns| - 1;
      SumAvoiding(grid, ns[..k], seen) + (if ns[k] !in seen then PathsAvoiding(grid, ns[k], seen) else 0)
  }

  lemma SumAvoidingStep(grid: Grid, ns: seq<Point>, k: nat, seen: set<Point>)
    requires k < |ns| && forall n :: n in ns ==> IsValid(grid, n)
    ensures SumAvoiding(grid, ns[..k + 1], seen)
      == SumAvoiding(grid, ns[..k], seen) + (if ns[k] !in seen then PathsAvoiding(grid, ns[k], seen) else 0)
  {
    assert ns[..k + 1][..k] == ns[..k];
  }

  lemma NeighborsValid(grid: Grid, p: Point)
    ensures forall n :: n in Neighbors(grid, p) ==> IsValid(grid, n) && Climbs(grid, p, n)
  {
    forall n | n in Neighbors(grid, p) ensures IsValid(grid, n) && Climbs(grid, p, n) {
      NeighborsMeaning(grid, p, n);
    }
  }

  lemma HeightRange(grid: Grid, p: Point)
    requires DigitHeights(grid) && Height(grid, p).Some?
    ensures 0 <= Height(grid, p).value <= 9
  {
  }

  /** How far a height is below 10; it falls by one at each climbing step. */
  function Rank(grid: Grid, p: Point): nat {
    var h := Height(grid, p);
    if h.Some? && 0 <= h.value <= 10 then 10 - h.value else 0
  }

  /** The rating of `p`: the number of distinct trails from it that climb to height 9,
      summed over its neighbours. */
  function Paths(grid: Grid, p: Point): nat
    requires DigitHeights(grid)
    decreases Rank(grid, p), 0, 0
  {
    var h := Height(grid, p);
    if h == Some(9) then 1
    else if h.None? then 0
    else
      NeighborsValid(grid, p);
      SumPaths(grid, Neighbors(grid, p), h.value + 1)
  }

  /** The ratings of `ns`, all at height `h`, summed. */
  function SumPaths(grid: Grid, ns: seq<Point>, h: int): nat
    requires DigitHeights(grid) && h <= 9
    requires forall n :: n in ns ==> Height(grid, n) == Some(h)
    decreases 10 - h, 1, |ns|
  {
    if ns == [] then 0
    else
      var k := |ns| - 1;
      SumPaths(grid, ns[..k], h) + Paths(grid, ns[k])
  }

  /** Every cell of `seen` is lower than height `h`. */
  predicate AllBelow(grid: Grid, seen: set<Point>, h: int) {
    forall v :: v in seen ==> Height(grid, v).Some? && Height(grid, v).value < h
  }

  /** The `visited` check never skips a trail: a trail climbs, so it cannot come back to
      a lower cell, and every cell in `visited` is lower than the current one. Counting
      from a trailhead with an empty `visited` therefore gives its rating. */
  lemma {:induction false} AvoidingIsPaths(grid: Grid, p: Point, seen: set<Point>)
    requires DigitHeights(grid) && IsValid(grid, p) && p !in seen
    requires Height(grid, p).Some? && AllBelow(grid, seen, Height(grid, p).value)
    ensures PathsAvoiding(grid, p, seen) == Paths(grid, p)
    decreases Rank(grid, p), 0, 0
  {
    var h := Height(grid, p);
    if h != Some(9) {
      NeighborsValid(grid, p);
      SumAvoidingIsSum(grid, Neighbors(grid, p), h.value + 1, seen + {p});
    }
  }

  lemma {:induction false} SumAvoidingIsSum(grid: Grid, ns: seq<Point>, h: int, seen: set<Point>)
    requires DigitHeights(grid) && h <= 9
    requires forall n :: n in ns ==> IsValid(grid, n) && Height(grid, n) == Some(h)
    requires AllBelow(grid, seen, h)
    ensures SumAvoiding(grid, ns, seen) == SumPaths(grid, ns, h)
    decreases 10 - h, 1, |ns|
  {
    if ns != [] {
      var k := |ns| - 1;
      SumAvoidingIsSum(grid, ns[..k], h, seen);
      AvoidingIsPaths(grid, ns[k], seen);
    }
  }

  /** A JavaScript `Set` of cell keys, shared by reference. */
  class PointSet {
    var keys: set<Point>

    /** `new Set(other)`: a fresh set holding the same keys. */
    constructor(keys0: set<Point>)
      ensures keys == keys0
    {
      keys := keys0;
    }
  }

  /** `countUniquePaths`: a peak counts 1; otherwise the cell is added to `visited`, each
      neighbour not in it is counted with a fresh copy of `visited`, and the cell is
      deleted again, so the caller's set ends as it began. */
  method CountUniquePaths(grid: Grid, current: Point, visited: PointSet) returns (pathCount: nat)
    requires IsValid(grid, current) && current !in visited.keys
    modifies visited
    ensures pathCount == PathsAvoiding(grid, current, old(visited.keys))
    ensures visited.keys == old(visited.keys)
    decreases |ValidCells(grid) - visited.keys|, 0
  {
    if Height(grid, current) == Some(9) {
      return 1;
    }
    ghost var seen := visited.keys;
    FewerUnvisited(grid, seen, current);
    visited.keys := visited.keys + {current};
    var neighbors := Neighbors(grid, current);
    NeighborsValid(grid, current);
    pathCount := CountNeighbors(grid, neighbors, visited.keys);
    visited.keys := visited.keys - {current};
    assert visited.keys == seen;
  }

  /** The neighbour loop of `countUniquePaths`: each neighbour not in `visited` is
      counted with its own copy of `visited`. */
  method CountNeighbors(grid: Grid, neighbors: seq<Point>, keys: set<Point>) returns (pathCount: nat)
    requires forall n :: n in neighbors ==> IsValid(grid, n)
    ensures pathCount == SumAvoiding(grid, neighbors, keys)
    decreases |ValidCells(grid) - keys|, 1
  {
    pathCount := 0;
    for k := 0 to |neighbors|
      invariant pathCount == SumAvoiding(grid, neighbors[..k], keys)
    {
      var neighbor := neighbors[k];
      SumAvoidingStep(grid, neighbors, k, keys);
      if neighbor !in keys {
        var copy := new PointSet(keys);
        var count := CountUniquePaths(grid, neighbor, copy);
        pathCount := pathCount + count;
      }
    }
    assert neighbors[..|neighbors|] == neighbors;
  }

  // ---------------------------------------------------------------- the answers

  /** The scores of the trailheads `ts`, summed. */
  ghost function TotalScore(grid: Grid, ts: seq<Point>): nat {
    if ts == [] then 0 else TotalScore(grid, ts[..|ts| - 1]) + |Peaks(grid, ts[|ts| - 1])|
  }

  /** The ratings of the trailheads `ts`, summed. */
  function TotalRating(grid: Grid, ts: seq<Point>): nat
    requires DigitHeights(grid)
  {
    if ts == [] then 0 else TotalRating(grid, ts[..|ts| - 1]) + Paths(grid, ts[|ts| - 1])
  }

  /** The peaks reached from any of `ns`. */
  ghost function PeaksOfAll(grid: Grid, ns: seq<Point>): set<Point> {
    if ns == [] then {} else PeaksOfAll(grid, ns[..|ns| - 1]) + Peaks(grid, ns[|ns| - 1])
  }

  lemma {:induction false} InPeaksOfAll(grid: Grid, ns: seq<Point>, k: nat)
    requires k < |ns|
    ensures Peaks(grid, ns[k]) <= PeaksOfAll(grid, ns)
  {
    if k < |ns| - 1 {
      InPeaksOfAll(grid, ns[..|ns| - 1], k);
    }
  }

  lemma SubsetSize<T>(a: set<T>, b: set<T>)
    requires a <= b
    ensures |a| <= |b|
  {
    assert b == a + (b - a);
  }

  /** The rest of a trail after its first step is a trail. */
  lemma TrailTail(grid: Grid, path: seq<Point>)
    requires IsTrail(grid, path) && |path| >= 2
    ensures IsTrail(grid, path[1..])
  {
    var tail := path[1..];
    forall i | 0 <= i < |tail| - 1
      ensures Height(grid, tail[i]) != Some(9) && tail[i + 1] in Neighbors(grid, tail[i])
    {
      assert tail[i] == path[i + 1] && tail[i + 1] == path[i + 2];
    }
  }

  /** A trail to another cell starts with a step to a neighbour, from which the rest of
      it goes on. */
  lemma FirstStep(grid: Grid, p: Point, q: Point) returns (n: Point)
    requires Reachable(grid, p, q) && p != q
    ensures n in Neighbors(grid, p) && Reachable(grid, n, q)
  {
    var path :| IsTrail(grid, path) && path[0] == p && path[|path| - 1] == q;
    TrailTail(grid, path);
    n := path[1];
    assert path[1..][0] == n && path[1..][|path| - 2] == q;
  }

  /** Nothing goes on from a peak. */
  lemma PeakAlone(grid: Grid, p: Point, q: Point)
    requires Height(grid, p) == Some(9) && Reachable(grid, p, q)
    ensures q == p
  {
    var path :| IsTrail(grid, path) && path[0] == p && path[|path| - 1] == q;
    assert |path| == 1;
  }

  /** A trail from a cell that is not a peak goes on through one of its neighbours. */
  lemma PeaksThroughNeighbors(grid: Grid, p: Point)
    requires Height(grid, p) != Some(9)
    ensures Peaks(grid, p) <= PeaksOfAll(grid, Neighbors(grid, p))
  {
    var ns := Neighbors(grid, p);
    forall q | q in Peaks(grid, p) ensures q in PeaksOfAll(grid, ns) {
      var n := FirstStep(grid, p, q);
      var k :| 0 <= k < |ns| && ns[k] == n;
      assert q in Peaks(grid, ns[k]);
      InPeaksOfAll(grid, ns, k);
    }
  }

  /** A trailhead's score is at most its rating: every peak it reaches ends at least one
      trail. */
  lemma {:induction false} ScoreAtMostRating(grid: Grid, p: Point)
    requires DigitHeights(grid)
    ensures |Peaks(grid, p)| <= Paths(grid, p)
    decreases Rank(grid, p), 0, 1
  {
    var h := Height(grid, p);
    if h == Some(9) {
      forall q | q in Peaks(grid, p) ensures q == p {
        PeakAlone(grid, p, q);
      }
      SubsetSize(Peaks(grid, p), {p});
    } else {
      PeaksThroughNeighbors(grid, p);
      var ns := Neighbors(grid, p);
      SubsetSize(Peaks(grid, p), PeaksOfAll(grid, ns));
      if h.None? {
        KeepClimbsNaN(grid, p, Candidates(p));
      } else {
        ClimbBound(grid, p);
      }
    }
  }

  lemma {:induction false} ClimbBound(grid: Grid, p: Point)
    requires DigitHeights(grid) && Height(grid, p).Some? && Height(grid, p) != Some(9)
    ensures |PeaksOfAll(grid, Neighbors(grid, p))| <= Paths(grid, p)
    decreases Rank(grid, p), 0, 0
  {
    HeightRange(grid, p);
    NeighborsValid(grid, p);
    UnionAtMostSum(grid, Neighbors(grid, p), Height(grid, p).value + 1);
  }

  lemma {:induction false} UnionAtMostSum(grid: Grid, ns: seq<Point>, h: int)
    requires DigitHeights(grid) && h <= 9
    requires forall n :: n in ns ==> Height(grid, n) == Some(h)
    ensures |PeaksOfAll(grid, ns)| <= SumPaths(grid, ns, h)
    decreases 10 - h, 1, |ns|
  {
    if ns != [] {
      var k := |ns| - 1;
      UnionAtMostSum(grid, ns[..k], h);
      ScoreAtMostRating(grid, ns[k]);
    }
  }

  lemma {:induction false} KeepClimbsNaN(grid: Grid, p: Point, cs: seq<Point>)
    requires Height(grid, p).None?
    ensures KeepClimbs(grid, p, cs) == []
  {
    if cs != [] {
      KeepClimbsNaN(grid, p, cs[1..]);
    }
  }

  /** The part 1 answer never exceeds the part 2 answer. */
  lemma {:induction false} TotalScoreAtMostRating(grid: Grid, ts: seq<Point>)
    requires DigitHeights(grid)
    ensures TotalScore(grid, ts) <= TotalRating(grid, ts)
  {
    if ts != [] {
      TotalScoreAtMostRating(grid, ts[..|ts| - 1]);
      ScoreAtMostRating(grid, ts[|ts| - 1]);
    }
  }

  lemma TrailheadsValid(grid: Grid)
    ensures forall t :: t in Trailheads(grid) ==> IsValid(grid, t) && Height(grid, t) == Some(0)
  {
    TrailheadsMeaning(grid);
  }

  /** The loop of `solve_pt1`: one search per trailhead. */
  method SumScores(grid: Grid, trailheads: seq<Point>) returns (totalScore: nat)
    requires forall t :: t in trailheads ==> IsValid(grid, t)
    ensures totalScore == TotalScore(grid, trailheads)
  {
    totalScore := 0;
    for k := 0 to |trailheads|
      invariant totalScore == TotalScore(grid, trailheads[..k])
    {
      var peaks := FindPeaks(grid, trailheads[k]);
      assert trailheads[..k + 1][..k] == trailheads[..k];
      totalScore := totalScore + |peaks|;
    }
    assert trailheads[..|trailheads|] == trailheads;
  }

  /** The loop of `solve_pt2`: each trailhead is counted from an empty `visited`. */
  method SumRatings(grid: Grid, trailheads: seq<Point>) returns (totalRating: nat)
    requires DigitHeights(grid)
    requires forall t :: t in trailheads ==> IsValid(grid, t) && Height(grid, t) == Some(0)
    ensures totalRating == TotalRating(grid, trailheads)
  {
    totalRating := 0;
    for k := 0 to |trailheads|
      invariant totalRating == TotalRating(grid, trailheads[..k])
    {
      var visited := new PointSet({});
      var pathCount := CountUniquePaths(grid, trailheads[k], visited);
      AvoidingIsPaths(grid, trailheads[k], {});
      assert trailheads[..k + 1][..k] == trailheads[..k];
      totalRating := totalRating + pathCount;
    }
    assert trailheads[..|trailheads|] == trailheads;
  }

  /** `solve_pt1`: the scores of all trailheads summed. */
  method SolvePt1(input: string) returns (totalScore: nat)
    ensures totalScore == TotalScore(ParseGrid(input), Trailheads(ParseGrid(input)))
  {
    var grid := ParseGrid(input);
    var trailheads := FindTrailheads(grid);
    TrailheadsValid(grid);
    totalScore := SumScores(grid, trailheads);
  }

  /** `solve_pt2`: the ratings of all trailheads summed. */
  method SolvePt2(input: string) returns (totalRating: nat)
    ensures totalRating == TotalRating(ParseGrid(input), Trailheads(ParseGrid(input)))
  {
    var grid := ParseGrid(input);
    var trailheads := FindTrailheads(grid);
    TrailheadsValid(grid);
    totalRating := SumRatings(grid, trailheads);
  }
}
