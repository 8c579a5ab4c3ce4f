/** Day 20, the cheats of `index.day20.ts`: from every cell honestly reachable from `S`, a
    cheat may jump to any cell within Manhattan distance 20 that is not a wall. A cheat is
    kept when the race through it is shorter than the honest race, and part 2 counts the
    kept cheats whose saving is at least 100. */
module Day20Cheats {
  import opened JsText
  import opened Day20Race

  // ---------------------------------------------------------------------------------
  // Finding S and E

  /** Cell `q` lies in the scanned area — the rows of the grid, the columns of its first
      row — and holds `ch`. A column past the end of a shorter row reads `undefined`. */
  predicate Marked(grid: seq<string>, q: Point, ch: char) {
    0 <= q.y < |grid| && 0 <= q.x < |grid[0]| && q.x < |grid[q.y]| && grid[q.y][q.x] == ch
  }

  /** `q` comes before column x of row y in row-major order. */
  predicate Before(q: Point, y: int, x: int) {
    q.y < y || (q.y == y && q.x < x)
  }

  /** Of the cells scanned before (y, x), `p` is the last that holds `ch`, or none does and
      `p` is the default (0, 0). */
  ghost predicate LastSeen(grid: seq<string>, ch: char, p: Point, y: int, x: int) {
    if exists q :: Marked(grid, q, ch) && Before(q, y, x) then
      Marked(grid, p, ch) && Before(p, y, x) &&
      forall q :: Marked(grid, q, ch) && Before(q, y, x) ==> !Before(p, q.y, q.x)
    else p == Point(0, 0)
  }

  /** Scanning cell (y, x) keeps `p` unless the cell holds `ch`, in which case it is the new
      last one. */
  lemma SeenStep(grid: seq<string>, ch: char, p: Point, y: nat, x: nat)
    requires y < |grid| && x < |grid[0]| && LastSeen(grid, ch, p, y, x)
    ensures x < |grid[y]| && grid[y][x] == ch ==> LastSeen(grid, ch, Point(x, y), y, x + 1)
    ensures !(x < |grid[y]| && grid[y][x] == ch) ==> LastSeen(grid, ch, p, y, x + 1)
  {
    if x < |grid[y]| && grid[y][x] == ch {
      assert Marked(grid, Point(x, y), ch) && Before(Point(x, y), y, x + 1);
    } else {
      forall q | Marked(grid, q, ch) && Before(q, y, x + 1) ensures Before(q, y, x) {
      }
    }
  }

  /** The end of the scanned part of a row is the start of the next one. */
  lemma SeenRow(grid: seq<string>, ch: char, p: Point, y: nat)
    requires y < |grid| && LastSeen(grid, ch, p, y, |grid[0]|)
    ensures LastSeen(grid, ch, p, y + 1, 0)
  {
    forall q | Marked(grid, q, ch) ensures Before(q, y + 1, 0) <==> Before(q, y, |grid[0]|) {
    }
  }

  /** The width `findStartEnd` scans: the length of the first row. */
  function Width(grid: seq<string>): nat {
    if grid == [] then 0 else |grid[0]|
  }

  /** The scan's answer after the cells before (y, x): the last one holding `ch`, or the
      default (0, 0). */
  function LastFound(grid: seq<string>, ch: char, y: nat, x: nat): Point
    requires y <= |grid| && x <= Width(grid)
    decreases y, x
  {
    if x > 0 then
      if Marked(grid, Point(x - 1, y), ch) then Point(x - 1, y) else LastFound(grid, ch, y, x - 1)
    else if y > 0 then LastFound(grid, ch, y - 1, Width(grid))
    else Point(0, 0)
  }

  /** The scan's answer is the last cell holding `ch` before (y, x). */
  lemma {:induction false} LastFoundSeen(grid: seq<string>, ch: char, y: nat, x: nat)
    requires y <= |grid| && x <= Width(grid)
    ensures LastSeen(grid, ch, LastFound(grid, ch, y, x), y, x)
    decreases y, x
  {
    if x > 0 {
      LastFoundSeen(grid, ch, y, x - 1);
      FoundStep(grid, ch, y, x - 1);
    } else if y > 0 {
      LastFoundSeen(grid, ch, y - 1, Width(grid));
      SeenRow(grid, ch, LastFound(grid, ch, y - 1, Width(grid)), y - 1);
    }
  }

  lemma FoundStep(grid: seq<string>, ch: char, y: nat, x: nat)
    requires y <= |grid| && x < Width(grid) && LastSeen(grid, ch, LastFound(grid, ch, y, x), y, x)
    ensures LastSeen(grid, ch, LastFound(grid, ch, y, x + 1), y, x + 1)
  {
    if y < |grid| {
      SeenStep(grid, ch, LastFound(grid, ch, y, x), y, x);
    } else {
      forall q | Marked(grid, q, ch) ensures Before(q, y, x + 1) <==> Before(q, y, x) {
      }
    }
  }

  /** `findStartEnd`: `start` is the last `S` and `end` the last `E` in row-major order over
      the first row's width, each (0, 0) when there is none. */
  method FindStartEnd(grid: seq<string>) returns (start: Point, end: Point)
    ensures LastSeen(grid, 'S', start, |grid|, 0) && LastSeen(grid, 'E', end, |grid|, 0)
  {
    start, end := Point(0, 0), Point(0, 0);
    for y := 0 to |grid|
      invariant start == LastFound(grid, 'S', y, 0) && end == LastFound(grid, 'E', y, 0)
    {
      for x := 0 to |grid[0]|
        invariant start == LastFound(grid, 'S', y, x) && end == LastFound(grid, 'E', y, x)
      {
        if x < |grid[y]| && grid[y][x] == 'S' {
          start := Point(x, y);
        }
        if x < |grid[y]| && grid[y][x] == 'E' {
          end := Point(x, y);
        }
      }
    }
    LastFoundSeen(grid, 'S', |grid|, 0);
    LastFoundSeen(grid, 'E', |grid|, 0);
  }

  /** The scan finds `ch` exactly when the scanned area holds it, and then at a cell that
      holds it. */
  lemma LastSeenFound(grid: seq<string>, ch: char, p: Point)
    requires LastSeen(grid, ch, p, |grid|, 0)
    ensures (exists q :: Marked(grid, q, ch)) ==> Marked(grid, p, ch)
    ensures (forall q :: !Marked(grid, q, ch)) ==> p == Point(0, 0)
  {
    if exists q :: Marked(grid, q, ch) {
      var q :| Marked(grid, q, ch);
      assert Before(q, |grid|, 0);
    }
  }

  // ---------------------------------------------------------------------------------
  // findPotentialCheatEndpoints

  /** A cheat from `start` to `end` of `length` steps through walls. */
  datatype CheatPath = CheatPath(start: Point, end: Point, length: nat)

  /** Where a cheat from `start` may end: a passable cell 1 to 20 steps away. */
  predicate IsEndpoint(grid: seq<string>, start: Point, e: Point) {
    1 <= Manhattan(start, e) <= 20 && Passable(grid, e)
  }

  function Ends(cheats: seq<CheatPath>): set<Point> {
    set c | c in cheats :: c.end
  }

  lemma EndsSnoc(cheats: seq<CheatPath>, c: CheatPath)
    ensures Ends(cheats + [c]) == Ends(cheats) + {c.end}
  {
    assert c in cheats + [c];
    forall e | e in Ends(cheats + [c]) ensures e in Ends(cheats) + {c.end} {
      var d :| d in cheats + [c] && d.end == e;
    }
  }

  /** Every listed cheat starts at `start`, ends at an endpoint, and is as long as the
      Manhattan distance it covers. */
  predicate Listed(grid: seq<string>, start: Point, cheats: seq<CheatPath>) {
    forall c :: c in cheats ==>
      c.start == start && IsEndpoint(grid, start, c.end) && c.length == Manhattan(start, c.end)
  }

  /** The ends are in strictly increasing row-major order. */
  predicate RowMajor(cheats: seq<CheatPath>) {
    forall i, j :: 0 <= i < j < |cheats| ==> Before(cheats[i].end, cheats[j].end.y, cheats[j].end.x)
  }

  /** The state of the offset loops of `findPotentialCheatEndpoints` before the offset
      (dx, dy): the listed cheats are the endpoints before `start + (dx, dy)` in row-major
      order, in that order. */
  ghost predicate Scanned(grid: seq<string>, start: Point, endpoints: seq<CheatPath>, dy: int, dx: int) {
    Listed(grid, start, endpoints) && RowMajor(endpoints) &&
    (forall c :: c in endpoints ==> Before(c.end, start.y + dy, start.x + dx)) &&
    forall e :: IsEndpoint(grid, start, e) && Before(e, start.y + dy, start.x + dx) ==> e in Ends(endpoints)
  }

  /** One offset of the inner loop: the cell is listed exactly when it is an endpoint. */
  lemma OffsetStep(grid: seq<string>, start: Point, endpoints: seq<CheatPath>, dy: int, dx: int)
    requires Scanned(grid, start, endpoints, dy, dx)
    ensures var end := Point(start.x + dx, start.y + dy);
      var listed := if IsEndpoint(grid, start, end)
        then endpoints + [CheatPath(start, end, Abs(dx) + Abs(dy))] else endpoints;
      Scanned(grid, start, listed, dy, dx + 1)
  {
    var end := Point(start.x + dx, start.y + dy);
    var c := CheatPath(start, end, Abs(dx) + Abs(dy));
    forall e | IsEndpoint(grid, start, e) && Before(e, start.y + dy, start.x + dx + 1)
      ensures Before(e, start.y + dy, start.x + dx) || e == end
    {
    }
    if IsEndpoint(grid, start, end) {
      EndsSnoc(endpoints, c);
      var listed := endpoints + [c];
      assert forall i :: 0 <= i < |endpoints| ==> listed[i] == endpoints[i];
      assert Listed(grid, start, listed);
    }
  }

  /** A finished row of offsets: no endpoint lies further than 20 columns from `start`. */
  lemma RowDone(grid: seq<string>, start: Point, endpoints: seq<CheatPath>, dy: int)
    requires Scanned(grid, start, endpoints, dy, 21)
    ensures Scanned(grid, start, endpoints, dy + 1, -20)
  {
  }

  /** `findPotentialCheatEndpoints`: every endpoint of a cheat from `start`, once each, in
      row-major order, with the number of steps the cheat takes. */
  method FindPotentialCheatEndpoints(grid: seq<string>, start: Point) returns (endpoints: seq<CheatPath>)
    ensures Listed(grid, start, endpoints)
    ensures forall e :: IsEndpoint(grid, start, e) ==> e in Ends(endpoints)
    ensures RowMajor(endpoints)
  {
    endpoints := [];
    for dy := -20 to 21
      invariant Scanned(grid, start, endpoints, dy, -20)
    {
      for dx := -20 to 21
        invariant Scanned(grid, start, endpoints, dy, dx)
      {
        var end := Point(start.x + dx, start.y + dy);
        OffsetStep(grid, start, endpoints, dy, dx);
        if Abs(dx) + Abs(dy) <= 20 {
          if !(end.y < 0 || end.y >= |grid| || end.x < 0 || end.x >= |grid[0]| ||
               (end.x < |grid[end.y]| && grid[end.y][end.x] == '#') || (dx == 0 && dy == 0)) {
            endpoints := endpoints + [CheatPath(start, end, Abs(dx) + Abs(dy))];
          }
        }
      }
      RowDone(grid, start, endpoints, dy);
    }
  }

  // ---------------------------------------------------------------------------------
  // findAllValidPaths

  /** The memo of `getCachedDistance`: every entry is the answer `findShortestPath` gives
      for its pair of cells. */
  class DistanceCache {
    const grid: seq<string>
    var entries: map<(Point, Point), Num>

    ghost predicate Valid()
      reads this
    {
      forall key :: key in entries ==> entries[key] == Distance(grid, key.0, key.1)
    }

    constructor (grid: seq<string>)
      ensures this.grid == grid && entries == map[] && Valid()
    {
      this.grid := grid;
      entries := map[];
    }

    /** `getCachedDistance`: runs the search on a miss and remembers its answer. */
    method Get(from: Point, to: Point) returns (d: Num)
      requires Valid()
      modifies this
      ensures Valid() && d == Distance(grid, from, to)
      ensures entries.Keys == old(entries.Keys) + {(from, to)}
    {
      if (from, to) !in entries {
        var steps := FindShortestPath(grid, from, to);
        entries := entries[(from, to) := steps];
      }
      d := entries[(from, to)];
    }
  }

  /** The race with the cheat from `s` to `e` — honestly to `s`, through the walls to `e`,
      honestly on to the goal — reaches the goal, and is shorter than the honest race. */
  ghost predicate Gain(grid: seq<string>, start: Point, end: Point, s: Point, e: Point) {
    var toGoal := Distance(grid, e, end);
    toGoal.Fin? &&
    Less(Add(Add(Distance(grid, start, s), Fin(Manhattan(s, e))), toGoal), Distance(grid, start, end))
  }

  /** A cheat `findAllValidPaths` keeps: it starts at a cell honestly reachable from the
      start, ends at one of that cell's endpoints, and gains. */
  ghost predicate Cheat(grid: seq<string>, start: Point, end: Point, s: Point, e: Point) {
    Connected(grid, start, s) && IsEndpoint(grid, s, e) && Gain(grid, start, end, s, e)
  }

  /** Each kept cheat is recorded with the number of steps it takes. */
  predicate Lengths(cheats: map<(Point, Point), nat>) {
    forall key :: key in cheats ==> cheats[key] == Manhattan(key.0, key.1)
  }

  /** The cheats recorded once the cells `tried` have been tried as cheat starts. */
  ghost predicate Recorded(grid: seq<string>, start: Point, end: Point, tried: set<Point>,
                           cheats: map<(Point, Point), nat>) {
    Lengths(cheats) &&
    forall key :: key in cheats <==> key.0 in tried && Cheat(grid, start, end, key.0, key.1)
  }

  /** After trying the endpoints `ends` of the cheat start `pos`, the recorded cheats are
      those recorded before and the gaining cheats from `pos` to one of `ends`. */
  ghost predicate Kept(grid: seq<string>, start: Point, end: Point, pos: Point, ends: set<Point>,
                       cheats0: map<(Point, Point), nat>, cheats: map<(Point, Point), nat>) {
    forall key :: key in cheats <==>
      (key in cheats0 || (key.0 == pos && key.1 in ends && Gain(grid, start, end, pos, key.1)))
  }

  /** The test of the loop over the endpoints: the goal is reachable from the cheat's end
      and the race through the cheat is shorter than the honest one. */
  lemma GainIs(grid: seq<string>, start: Point, end: Point, cheat: CheatPath, a: Num, b: Num, baseline: Num)
    requires a == Distance(grid, start, cheat.start) && b == Distance(grid, cheat.end, end)
    requires baseline == Distance(grid, start, end) && cheat.length == Manhattan(cheat.start, cheat.end)
    ensures b != Inf && Less(Add(Add(a, Fin(cheat.length)), b), baseline) <==>
      Gain(grid, start, end, cheat.start, cheat.end)
  {
  }

  /** Trying one more endpoint records its cheat exactly when it gains; an already recorded
      key keeps its length. */
  lemma KeptStep(grid: seq<string>, start: Point, end: Point, pos: Point, ends: set<Point>, e: Point,
                 gain: bool, cheats0: map<(Point, Point), nat>, cheats: map<(Point, Point), nat>, length: nat)
    requires Kept(grid, start, end, pos, ends, cheats0, cheats) && Lengths(cheats)
    requires length == Manhattan(pos, e) && gain == Gain(grid, start, end, pos, e)
    ensures var key := (pos, e);
      var cheats' := if gain && (key !in cheats || cheats[key] > length) then cheats[key := length] else cheats;
      Kept(grid, start, end, pos, ends + {e}, cheats0, cheats') && Lengths(cheats')
  {
  }

  /** The loop over the endpoints of one cheat start `pos`: it records each endpoint's
      cheat that gains, with its length, and leaves the other keys alone. */
  method TryCheats(cache: DistanceCache, start: Point, end: Point, baseline: Num, pos: Point,
                   potential: seq<CheatPath>, cheats0: map<(Point, Point), nat>)
    returns (cheats: map<(Point, Point), nat>)
    requires cache.Valid() && baseline == Distance(cache.grid, start, end)
    requires Listed(cache.grid, pos, potential) && Lengths(cheats0)
    modifies cache
    ensures cache.Valid() && Lengths(cheats)
    ensures Kept(cache.grid, start, end, pos, Ends(potential), cheats0, cheats)
  {
    cheats := cheats0;
    for i := 0 to |potential|
      invariant cache.Valid() && Lengths(cheats)
      invariant Kept(cache.grid, start, end, pos, Ends(potential[..i]), cheats0, cheats)
    {
      var cheat := potential[i];
      assert cheat in potential;
      assert potential[..i + 1] == potential[..i] + [cheat];
      EndsSnoc(potential[..i], cheat);
      var startToCheatStart := cache.Get(start, cheat.start);
      var cheatEndToGoal := cache.Get(cheat.end, end);
      GainIs(cache.grid, start, end, cheat, startToCheatStart, cheatEndToGoal, baseline);
      KeptStep(cache.grid, start, end, pos, Ends(potential[..i]), cheat.end,
        Gain(cache.grid, start, end, pos, cheat.end), cheats0, cheats, cheat.length);
      if cheatEndToGoal != Inf {
        var totalLength := Add(Add(startToCheatStart, Fin(cheat.length)), cheatEndToGoal);
        if Less(totalLength, baseline) {
          var key := (cheat.start, cheat.end);
          if key !in cheats || cheats[key] > cheat.length {
            cheats := cheats[key := cheat.length];
          }
        }
      }
    }
    assert potential[..|potential|] == potential;
  }

  /** `findAllValidPaths`: every kept cheat, keyed by its start and end, with its length. */
  method FindAllValidPaths(grid: seq<string>)
    returns (cheats: map<(Point, Point), nat>, ghost start: Point, ghost end: Point)
    ensures LastSeen(grid, 'S', start, |grid|, 0) && LastSeen(grid, 'E', end, |grid|, 0)
    ensures Lengths(cheats)
    ensures forall key :: key in cheats <==> Cheat(grid, start, end, key.0, key.1)
  {
    var s, e := FindStartEnd(grid);
    start, end := s, e;
    var cache := new DistanceCache(grid);
    var baselineLength := cache.Get(s, e);
    var honestlyReachable := FindHonestlyReachablePositions(grid, s);
    cheats := map[];
    var remaining := honestlyReachable;
    while remaining != {}
      invariant cache.grid == grid && cache.Valid() && remaining <= honestlyReachable
      invariant Recorded(grid, s, e, honestlyReachable - remaining, cheats)
      decreases |remaining|
    {
      var pos :| pos in remaining;
      var potentialCheats := FindPotentialCheatEndpoints(grid, pos);
      ghost var tried := honestlyReachable - remaining;
      cheats := TryCheats(cache, s, e, baselineLength, pos, potentialCheats, cheats);
      remaining := remaining - {pos};
      assert honestlyReachable - remaining == tried + {pos};
      forall key ensures key in cheats <==> (key.0 in tried + {pos} && Cheat(grid, s, e, key.0, key.1)) {
        if key.0 == pos && IsEndpoint(grid, pos, key.1) {
          assert key.1 in Ends(potentialCheats);
        }
      }
    }
  }

  // ---------------------------------------------------------------------------------
  // The savings count of solve_pt2

  /** What a cheat of `length` steps from `key.0` to `key.1` saves over the honest walk
      between the same two cells. */
  ghost function Saving(grid: seq<string>, key: (Point, Point), length: nat): Num {
    Sub(Distance(grid, key.0, key.1), length)
  }

  /** The saving of every recorded cheat. */
  ghost function SavingsOf(grid: seq<string>, cheats: map<(Point, Point), nat>): (m: map<(Point, Point), Num>)
    ensures m.Keys == cheats.Keys
    ensures forall key :: key in m ==> m[key] == Saving(grid, key, cheats[key])
  {
    map key | key in cheats :: Saving(grid, key, cheats[key])
  }

  /** The cheats that save at least 100. */
  ghost function Savers(grid: seq<string>, cheats: map<(Point, Point), nat>): set<(Point, Point)> {
    set key | key in cheats && AtLeast(Saving(grid, key, cheats[key]), 100)
  }

  lemma SaversOf(grid: seq<string>, cheats: map<(Point, Point), nat>)
    ensures var saving := SavingsOf(grid, cheats);
      (set key | key in saving && AtLeast(saving[key], 100)) == Savers(grid, cheats)
  {
  }

  /** `savings > 0`, with Infinity above every whole number. */
  predicate Positive(n: Num) {
    AtLeast(n, 1)
  }

  /** `savingsMap.get(n) || 0`. */
  function TallyOf(tally: map<Num, nat>, n: Num): nat {
    if n in tally then tally[n] else 0
  }

  /** The tried keys whose saving is exactly `n`. */
  function Exactly<K>(saving: map<K, Num>, tried: set<K>, n: Num): set<K> {
    set key | key in saving && key in tried && saving[key] == n
  }

  /** The tally after trying the keys `tried`: each positive saving is counted by the number
      of tried keys that save it, and nothing else is counted. */
  ghost predicate Tallied<K>(saving: map<K, Num>, tried: set<K>, tally: map<Num, nat>) {
    (forall n :: n in tally ==> Positive(n)) &&
    forall n :: Positive(n) ==> TallyOf(tally, n) == |Exactly(saving, tried, n)|
  }

  /** Trying one more key adds it to the keys of its own saving, and to no others. */
  lemma ExactlyStep<K>(saving: map<K, Num>, tried: set<K>, key: K, n: Num)
    requires key in saving && key !in tried
    ensures |Exactly(saving, tried + {key}, n)| == |Exactly(saving, tried, n)| + if saving[key] == n then 1 else 0
  {
    var before, after := Exactly(saving, tried, n), Exactly(saving, tried + {key}, n);
    if saving[key] == n {
      assert after == before + {key} && key !in before;
    } else {
      assert after == before;
    }
  }

  /** Trying one more key counts it under its own saving when that is positive. */
  lemma TallyStep<K>(saving: map<K, Num>, tried: set<K>, tally: map<Num, nat>, key: K)
    requires Tallied(saving, tried, tally) && key in saving && key !in tried
    ensures var n := saving[key];
      Tallied(saving, tried + {key}, if Positive(n) then tally[n := TallyOf(tally, n) + 1] else tally)
  {
    var s := saving[key];
    var tally' := if Positive(s) then tally[s := TallyOf(tally, s) + 1] else tally;
    forall n | Positive(n) ensures TallyOf(tally', n) == |Exactly(saving, tried + {key}, n)| {
      ExactlyStep(saving, tried, key, n);
    }
  }

  /** The loop over the cheats that fills `savingsMap`: the honest walk between each
      cheat's two cells, less the cheat's length, is counted when positive. */
  method TallySavings(grid: seq<string>, cheats: map<(Point, Point), nat>) returns (tally: map<Num, nat>)
    ensures Tallied(SavingsOf(grid, cheats), cheats.Keys, tally)
  {
    ghost var saving := SavingsOf(grid, cheats);
    tally := map[];
    var remaining := cheats.Keys;
    while remaining != {}
      invariant remaining <= cheats.Keys
      invariant Tallied(saving, cheats.Keys - remaining, tally)
      decreases |remaining|
    {
      var key :| key in remaining;
      ghost var tried := cheats.Keys - remaining;
      TallyStep(saving, tried, tally, key);
      var normalLength := FindShortestPath(grid, key.0, key.1);
      var savings := Sub(normalLength, cheats[key]);
      assert savings == saving[key];
      if Positive(savings) {
        tally := tally[savings := TallyOf(tally, savings) + 1];
      }
      remaining := remaining - {key};
      assert cheats.Keys - remaining == tried + {key};
    }
    assert cheats.Keys - remaining == cheats.Keys;
  }

  /** The keys that save at least 100 and whose saving lies in `summed`. */
  function BigSavers<K>(saving: map<K, Num>, summed: set<Num>): set<K> {
    set key | key in saving && AtLeast(saving[key], 100) && saving[key] in summed
  }

  /** Adding one tallied saving to the sum adds the keys that save exactly it, when it is
      at least 100. */
  lemma SumStep<K>(saving: map<K, Num>, tally: map<Num, nat>, summed: set<Num>, n: Num)
    requires Tallied(saving, saving.Keys, tally) && n in tally && n !in summed
    ensures |BigSavers(saving, summed + {n})| ==
      |BigSavers(saving, summed)| + if AtLeast(n, 100) then tally[n] else 0
  {
    var exact := Exactly(saving, saving.Keys, n);
    if AtLeast(n, 100) {
      assert BigSavers(saving, summed + {n}) == BigSavers(saving, summed) + exact;
      assert BigSavers(saving, summed) * exact == {};
    } else {
      assert BigSavers(saving, summed + {n}) == BigSavers(saving, summed);
    }
  }

  /** Summing over every tallied saving sums over every key that saves at least 100. */
  lemma SumAll<K>(saving: map<K, Num>, tally: map<Num, nat>)
    requires Tallied(saving, saving.Keys, tally)
    ensures BigSavers(saving, tally.Keys) == set key | key in saving && AtLeast(saving[key], 100)
  {
    forall key | key in saving && AtLeast(saving[key], 100) ensures saving[key] in tally {
      assert key in Exactly(saving, saving.Keys, saving[key]);
    }
  }

  /** The sort, the two filters and the reduce that end `solve_pt2`: the counts of the
      savings of at least 100, added up. */
  method SumAtLeast100<K>(ghost saving: map<K, Num>, tally: map<Num, nat>) returns (count: nat)
    requires Tallied(saving, saving.Keys, tally)
    ensures count == |set key | key in saving && AtLeast(saving[key], 100)|
  {
    count := 0;
    var remaining := tally.Keys;
    while remaining != {}
      invariant remaining <= tally.Keys
      invariant count == |BigSavers(saving, tally.Keys - remaining)|
      decreases |remaining|
    {
      var n :| n in remaining;
      ghost var summed := tally.Keys - remaining;
      SumStep(saving, tally, summed, n);
      if AtLeast(n, 100) {
        count := count + tally[n];
      }
      remaining := remaining - {n};
      assert tally.Keys - remaining == summed + {n};
    }
    assert tally.Keys - remaining == tally.Keys;
    SumAll(saving, tally);
  }

  /** Every kept cheat saves time over the honest walk between its two cells, so the
      `savings > 0` test drops none of them: walks compose, and the cheat beats the honest
      race by no more than it beats that walk. */
  lemma CheatSaves(grid: seq<string>, start: Point, end: Point, s: Point, e: Point)
    requires Cheat(grid, start, end, s, e)
    ensures Positive(Saving(grid, (s, e), Manhattan(s, e)))
    ensures Distance(grid, s, e).Fin? ==> (Distance(grid, start, end).Fin? &&
      Distance(grid, s, e).v - Manhattan(s, e) >=
      Distance(grid, start, end).v - (Distance(grid, start, s).v + Manhattan(s, e) + Distance(grid, e, end).v))
  {
    var k: nat :| Reach(grid, start, s, k);
    if Distance(grid, s, e).Fin? {
      DistanceJoin(grid, start, s, e);
      DistanceJoin(grid, start, e, end);
    }
  }

  /** `solve_pt2` on the text of the input: the grid is its trimmed lines, and the answer
      counts the kept cheats whose saving is at least 100. */
  method SolvePt2(input: string)
    returns (count: nat, ghost grid: seq<string>, ghost cheats: map<(Point, Point), nat>,
             ghost start: Point, ghost end: Point)
    ensures grid == Split(Trim(input), "\n")
    ensures LastSeen(grid, 'S', start, |grid|, 0) && LastSeen(grid, 'E', end, |grid|, 0)
    ensures Lengths(cheats)
    ensures forall key :: key in cheats <==> Cheat(grid, start, end, key.0, key.1)
    ensures count == |Savers(grid, cheats)|
  {
    var g := Split(Trim(input), "\n");
    grid := g;
    var found;
    found, start, end := FindAllValidPaths(g);
    cheats := found;
    var tally := TallySavings(g, found);
    count := SumAtLeast100(SavingsOf(g, found), tally);
    SaversOf(g, found);
  }

  /** `solve_pt1`: part 1 is switched off. */
  function SolvePt1(): (r: int)
    ensures r == 0
  {
    0
  }
}
