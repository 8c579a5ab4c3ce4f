/** The first attempt at Day 20: a cheat of two moves from every track cell, scored against
    a fixed 84-picosecond race. The estimate can never reach 100, so no cheat ever counts. */
module Day20Estimate {
  import opened JsText
  import opened Day20Race

  /** The moves in the order this solution tries them: down, up, right, left. */
  const Moves: seq<(int, int)> := [(0, 1), (0, -1), (1, 0), (-1, 0)]

  /** `isValidPosition`: in bounds — the columns of the first row — and a track cell. A
      column past the end of a shorter row reads `undefined`, which is no track. The first
      row is read before anything else, so the grid may not be empty. */
  function IsValidPosition(grid: seq<string>, x: int, y: int): (ok: bool)
    requires grid != []
    ensures ok <==> 0 <= y < |grid| && 0 <= x < |grid[0]| && x < |grid[y]| &&
                    grid[y][x] in {'.', 'S', 'E'}
  {
    if x < 0 || x >= |grid[0]| || y < 0 || y >= |grid| then false
    else x < |grid[y]| && (grid[y][x] == '.' || grid[y][x] == 'S' || grid[y][x] == 'E')
  }

  /** `calculatePathSavings`: the Manhattan length of the cheat taken off an 84-picosecond
      race; never more than 84. */
  function CalculatePathSavings(start: Point, end: Point): (savings: int)
    ensures savings + Manhattan(start, end) == 84
    ensures savings <= 84
  {
    84 - (Abs(end.x - start.x) + Abs(end.y - start.y))
  }

  /** The cell two moves from `s`. */
  function Candidate(s: Point, i: nat, j: nat): Point
    requires i < |Moves| && j < |Moves|
  {
    Point(s.x + Moves[i].0 + Moves[j].0, s.y + Moves[i].1 + Moves[j].1)
  }

  /** Two moves end on the start cell or two steps from it. */
  lemma CandidateDistance(s: Point, i: nat, j: nat)
    requires i < |Moves| && j < |Moves|
    ensures Manhattan(s, Candidate(s, i, j)) == 0 || Manhattan(s, Candidate(s, i, j)) == 2
    ensures Manhattan(s, Candidate(s, i, j)) == 0 <==> Moves[i].0 == -Moves[j].0 && Moves[i].1 == -Moves[j].1
  {
  }

  /** A cheat the solution would count: both ends are track cells, the end is two moves
      from the start, and the estimate saves at least 100 picoseconds. */
  ghost predicate Qualifies(grid: seq<string>, s: Point, e: Point)
    requires grid != []
  {
    IsValidPosition(grid, s.x, s.y) && IsValidPosition(grid, e.x, e.y) &&
    (exists i: nat, j: nat :: i < |Moves| && j < |Moves| && e == Candidate(s, i, j)) &&
    CalculatePathSavings(s, e) >= 100
  }

  /** No cheat qualifies: the estimate never reaches 100. */
  lemma NoneQualify(grid: seq<string>, s: Point, e: Point)
    requires grid != []
    ensures !Qualifies(grid, s, e)
  {
  }

  /** `solve_pt1`: the cheats kept are exactly the qualifying ones and the answer counts
      them, so the answer is 0. */
  method SolvePt1(input: string) returns (count: int, cheats: set<(Point, Point)>)
    ensures var grid := Split(input, "\n");
      forall key :: key in cheats <==> Qualifies(grid, key.0, key.1)
    ensures count == |cheats| == 0
  {
    var grid := Split(input, "\n");
    cheats := {};
    count := 0;
    for y := 0 to |grid|
      invariant count == |cheats| && forall key :: key in cheats ==> Qualifies(grid, key.0, key.1)
    {
      for x := 0 to |grid[0]|
        invariant count == |cheats| && forall key :: key in cheats ==> Qualifies(grid, key.0, key.1)
      {
        if IsValidPosition(grid, x, y) {
          for i := 0 to |Moves|
            invariant count == |cheats| && forall key :: key in cheats ==> Qualifies(grid, key.0, key.1)
          {
            for j := 0 to |Moves|
              invariant count == |cheats| && forall key :: key in cheats ==> Qualifies(grid, key.0, key.1)
            {
              var e := Candidate(Point(x, y), i, j);
              if IsValidPosition(grid, e.x, e.y) {
                var key := (Point(x, y), e);
                if key !in cheats {
                  var savings := CalculatePathSavings(Point(x, y), e);
                  if savings >= 100 {
                    cheats := cheats + {key};
                    count := count + 1;
                  }
                }
              }
            }
          }
        }
      }
    }
    forall key: (Point, Point) | key in cheats ensures false {
      NoneQualify(grid, key.0, key.1);
    }
    forall key: (Point, Point) ensures !Qualifies(grid, key.0, key.1) {
      NoneQualify(grid, key.0, key.1);
    }
  }

  /** `solve_pt2` was never written: it answers 0. */
  function SolvePt2(): (r: int)
    ensures r == 0
  {
    0
  }
}
