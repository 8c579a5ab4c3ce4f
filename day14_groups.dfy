/** Day 14 of 2024, part 2 (node_runner/src/solved/index.day14.ts): the spatial grid of
    robot buckets and the flood fill that measures groups of touching robots. */
module Day14Groups {
  import opened Wrappers
  import opened Day14Robots

  // ---------------------------------------------------------------- occupancy

  /** The cells that hold at least one robot. */
  function Occupied(robots: seq<Robot>): set<Position> {
    set r | r in robots :: r.position
  }

  /** How many robots stand on a cell of `cells`. */
  function CountIn(robots: seq<Robot>, cells: set<Position>): (n: nat)
    ensures n <= |robots|
  {
    if robots == [] then 0
    else CountIn(robots[..|robots| - 1], cells) + (if robots[|robots| - 1].position in cells then 1 else 0)
  }

  /** Counting over two disjoint sets of cells adds up. */
  lemma {:induction false} CountUnion(robots: seq<Robot>, a: set<Position>, b: set<Position>)
    requires a !! b
    ensures CountIn(robots, a + b) == CountIn(robots, a) + CountIn(robots, b)
  {
    if robots != [] {
      CountUnion(robots[..|robots| - 1], a, b);
    }
  }

  /** No robot stands on no cell. */
  lemma {:induction false} CountNothing(robots: seq<Robot>)
    ensures CountIn(robots, {}) == 0
  {
    if robots != [] {
      CountNothing(robots[..|robots| - 1]);
    }
  }

  /** A cell holds a robot exactly when it is occupied. */
  lemma {:induction false} CountPositive(robots: seq<Robot>, p: Position)
    ensures CountIn(robots, {p}) > 0 <==> p in Occupied(robots)
  {
    if robots != [] {
      var front := robots[..|robots| - 1];
      CountPositive(front, p);
      assert robots == front + [robots[|robots| - 1]];
      assert Occupied(robots) == Occupied(front) + {robots[|robots| - 1].position};
    }
  }

  /** The robots on cell `p`, in input order: the bucket that `push` builds. */
  function RobotsAt(robots: seq<Robot>, p: Position): (rs: seq<Robot>)
    ensures |rs| == CountIn(robots, {p})
    ensures forall r :: r in rs ==> r.position == p
  {
    if robots == [] then []
    else RobotsAt(robots[..|robots| - 1], p)
         + (if robots[|robots| - 1].position == p then [robots[|robots| - 1]] else [])
  }

  /** The `positionMap` of `findContiguousGroups`: each occupied cell with its robots. */
  function PositionMap(robots: seq<Robot>): map<Position, seq<Robot>> {
    map p | p in Occupied(robots) :: RobotsAt(robots, p)
  }

  /** Two different cells that touch by a side or a corner. */
  predicate Adjacent(a: Position, b: Position) {
    a != b && -1 <= a.x - b.x <= 1 && -1 <= a.y - b.y <= 1
  }

  /** Cell `k` touches some cell of `pm`. */
  ghost predicate Touching(pm: map<Position, seq<Robot>>, k: Position) {
    exists q :: q in pm && Adjacent(q, k)
  }

  /** Cell `k` holds exactly one robot and touches no occupied cell. */
  ghost predicate Lone(pm: map<Position, seq<Robot>>, k: Position)
    requires k in pm
  {
    |pm[k]| == 1 && !Touching(pm, k)
  }

  /** No robot stands alone: every cell holding exactly one robot touches another occupied
      cell. This is what `allConnected` reports. */
  ghost predicate AllConnected(robots: seq<Robot>) {
    forall p :: p in Occupied(robots) && CountIn(robots, {p}) == 1 ==>
      exists q :: q in Occupied(robots) && Adjacent(q, p)
  }

  // ---------------------------------------------------------------- spatial grid

  /** The bucket of cell (x, y) in a column-then-row map; `[]` where there is none. */
  function CellOf(grid: map<int, map<int, seq<Robot>>>, x: int, y: int): seq<Robot> {
    if x in grid && y in grid[x] then grid[x][y] else []
  }

  /** `SpatialGrid`: the robots bucketed by column, then by row. */
  class SpatialGrid {
    var grid: map<int, map<int, seq<Robot>>>

    /** Every robot sits in the bucket of its own position. */
    ghost predicate Valid()
      reads this
    {
      forall x, y, r :: x in grid && y in grid[x] && r in grid[x][y] ==> r.position == Position(x, y)
    }

    constructor()
      ensures grid == map[] && Valid()
    {
      grid := map[];
    }

    /** The robots in cell (x, y). */
    function Cell(x: int, y: int): seq<Robot>
      reads this
    {
      CellOf(grid, x, y)
    }

    /** `add`: the robot is appended to the bucket of its own position, creating the
        column and the bucket when missing; every other bucket is unchanged. */
    method Add(robot: Robot)
      requires Valid()
      modifies this
      ensures Valid()
      ensures CellOf(grid, robot.position.x, robot.position.y) == CellOf(old(grid), robot.position.x, robot.position.y) + [robot]
      ensures forall x, y :: (x != robot.position.x || y != robot.position.y) ==> CellOf(grid, x, y) == CellOf(old(grid), x, y)
    {
      var x, y := robot.position.x, robot.position.y;
      if x !in grid {
        grid := grid[x := map[]];
      }
      if y !in grid[x] {
        grid := grid[x := grid[x][y := []]];
      }
      grid := grid[x := grid[x][y := grid[x][y] + [robot]]];
    }

    /** `clear`: no bucket is left. */
    method Clear()
      modifies this
      ensures grid == map[] && Valid()
    {
      grid := map[];
    }

    /** The buckets of column `pos.x + dx` from row `pos.y - 1` up to row `pos.y + dy`
        exclusive, skipping `pos` itself. */
    function Column(pos: Position, dx: int, dy: int): seq<Robot>
      requires -1 <= dy <= 2
      reads this
      decreases dy + 1
    {
      if dy == -1 then []
      else Column(pos, dx, dy - 1) + (if dx == 0 && dy - 1 == 0 then [] else Cell(pos.x + dx, pos.y + dy - 1))
    }

    /** The columns `pos.x - 1` up to `pos.x + dx` exclusive, in the order of the loops
        of `getPotentialNeighbors`. */
    function Ring(pos: Position, dx: int): seq<Robot>
      requires -1 <= dx <= 2
      reads this
      decreases dx + 1
    {
      if dx == -1 then [] else Ring(pos, dx - 1) + Column(pos, dx - 1, 2)
    }

    /** `getPotentialNeighbors`: the robots of the eight cells around `pos`. */
    method GetPotentialNeighbors(pos: Position) returns (neighbors: seq<Robot>)
      ensures neighbors == Ring(pos, 2)
    {
      neighbors := [];
      var dx := -1;
      while dx <= 1
        invariant -1 <= dx <= 2
        invariant neighbors == Ring(pos, dx)
      {
        var dy := -1;
        while dy <= 1
          invariant -1 <= dy <= 2
          invariant neighbors == Ring(pos, dx) + Column(pos, dx, dy)
        {
          if !(dx == 0 && dy == 0) {
            var x, y := pos.x + dx, pos.y + dy;
            if x in grid && y in grid[x] {
              neighbors := neighbors + grid[x][y];
            }
          }
          dy := dy + 1;
        }
        dx := dx + 1;
      }
    }
  }

  /** A robot is in the first `dy + 1` buckets of a column exactly when it stands on one
      of the cells they cover. */
  lemma {:induction false} ColumnMembers(sg: SpatialGrid, pos: Position, dx: int, dy: int, r: Robot)
    requires sg.Valid() && -1 <= dy <= 2
    ensures r in sg.Column(pos, dx, dy) <==>
      r.position.x == pos.x + dx && pos.y - 1 <= r.position.y < pos.y + dy && r.position != pos
      && r in sg.Cell(r.position.x, r.position.y)
  {
    if dy > -1 {
      ColumnMembers(sg, pos, dx, dy - 1, r);
    }
  }

  /** A robot is in the first columns of the ring exactly when it stands on one of the
      cells they cover. */
  lemma {:induction false} RingMembers(sg: SpatialGrid, pos: Position, dx: int, r: Robot)
    requires sg.Valid() && -1 <= dx <= 2
    ensures r in sg.Ring(pos, dx) <==>
      pos.x - 1 <= r.position.x < pos.x + dx && Adjacent(r.position, pos)
      && r in sg.Cell(r.position.x, r.position.y)
  {
    if dx > -1 {
      RingMembers(sg, pos, dx - 1, r);
      ColumnMembers(sg, pos, dx - 1, 2, r);
    }
  }

  /** The ring around `pos` holds exactly the robots of the eight cells that touch it. */
  lemma RingAround(sg: SpatialGrid, pos: Position)
    requires sg.Valid()
    ensures forall r :: r in sg.Ring(pos, 2) <==> Adjacent(r.position, pos) && r in sg.Cell(r.position.x, r.position.y)
  {
    forall r ensures r in sg.Ring(pos, 2) <==> Adjacent(r.position, pos) && r in sg.Cell(r.position.x, r.position.y) {
      RingMembers(sg, pos, 2, r);
    }
  }

  // ---------------------------------------------------------------- contiguous groups

  /** The spatial grid and the position map hold the same buckets. */
  ghost predicate Agree(sg: SpatialGrid, pm: map<Position, seq<Robot>>)
    reads sg
  {
    Agrees(sg.grid, pm)
  }

  ghost predicate Agrees(grid: map<int, map<int, seq<Robot>>>, pm: map<Position, seq<Robot>>) {
    forall p: Position :: CellOf(grid, p.x, p.y) == (if p in pm then pm[p] else [])
  }

  /** Appending a robot to its bucket on both sides keeps the two maps in agreement. */
  lemma AgreesAdd(g: map<int, map<int, seq<Robot>>>, g': map<int, map<int, seq<Robot>>>,
                  pm: map<Position, seq<Robot>>, robot: Robot)
    requires Agrees(g, pm)
    requires CellOf(g', robot.position.x, robot.position.y) == CellOf(g, robot.position.x, robot.position.y) + [robot]
    requires forall x, y :: (x != robot.position.x || y != robot.position.y) ==> CellOf(g', x, y) == CellOf(g, x, y)
    ensures Agrees(g', pm[robot.position := (if robot.position in pm then pm[robot.position] else []) + [robot]])
  {
    var key := robot.position;
    var pm' := pm[key := (if key in pm then pm[key] else []) + [robot]];
    forall p: Position ensures CellOf(g', p.x, p.y) == (if p in pm' then pm'[p] else []) {
      if p != key {
        assert p.x != key.x || p.y != key.y;
      }
    }
  }

  /** `pm` is the position map of `robots`, cell by cell. */
  ghost predicate Tally(pm: map<Position, seq<Robot>>, robots: seq<Robot>) {
    pm.Keys == Occupied(robots) && forall k :: k in pm ==> pm[k] == RobotsAt(robots, k)
  }

  /** `order` lists the keys of `pm` once each, as a `Map` iterates them. */
  ghost predicate Listing(order: seq<Position>, pm: map<Position, seq<Robot>>) {
    (forall i, j :: 0 <= i < j < |order| ==> order[i] != order[j])
    && forall k :: k in pm <==> k in order
  }

  /** Every bucket of a tally is non-empty. */
  lemma TallyNonEmpty(pm: map<Position, seq<Robot>>, robots: seq<Robot>, k: Position)
    requires Tally(pm, robots) && k in pm
    ensures |pm[k]| == CountIn(robots, {k}) > 0
  {
    CountPositive(robots, k);
  }

  /** The map-building `forEach` of `findContiguousGroups`: both the spatial grid and the
      position map receive every robot, and the keys are listed in insertion order. */
  method BuildMaps(robots: seq<Robot>) returns (sg: SpatialGrid, pm: map<Position, seq<Robot>>, order: seq<Position>)
    ensures fresh(sg) && sg.Valid()
    ensures Agree(sg, pm) && Tally(pm, robots) && Listing(order, pm)
  {
    sg := new SpatialGrid();
    pm := map[];
    order := [];
    var i := 0;
    assert robots[..0] == [];
    assert Occupied([]) == {};
    assert Tally(pm, robots[..0]);
    assert Agrees(sg.grid, pm);
    while i < |robots|
      invariant 0 <= i <= |robots|
      invariant fresh(sg) && sg.Valid()
      invariant Agree(sg, pm) && Listing(order, pm)
      invariant Tally(pm, robots[..i])
    {
      var robot := robots[i];
      var key := robot.position;
      ghost var g, pm0, order0 := sg.grid, pm, order;
      sg.Add(robot);
      var bucket := if key in pm then pm[key] else [];
      if key !in pm {
        order := order + [key];
      }
      pm := pm[key := bucket + [robot]];
      BuildStep(g, sg.grid, pm0, order0, robots, i);
      i := i + 1;
    }
    assert robots[..|robots|] == robots;
  }

  /** One robot of the map-building loop: appended to its bucket on both maps, and its
      cell listed when new, the maps still agree and tally the robots seen so far. */
  lemma BuildStep(g: map<int, map<int, seq<Robot>>>, g': map<int, map<int, seq<Robot>>>,
                  pm: map<Position, seq<Robot>>, order: seq<Position>, robots: seq<Robot>, i: nat)
    requires i < |robots| && Agrees(g, pm) && Listing(order, pm) && Tally(pm, robots[..i])
    requires CellOf(g', robots[i].position.x, robots[i].position.y) == CellOf(g, robots[i].position.x, robots[i].position.y) + [robots[i]]
    requires forall x, y :: (x != robots[i].position.x || y != robots[i].position.y) ==> CellOf(g', x, y) == CellOf(g, x, y)
    ensures var key := robots[i].position;
            var pm' := pm[key := (if key in pm then pm[key] else []) + [robots[i]]];
            Agrees(g', pm') && Listing(if key in pm then order else order + [key], pm') && Tally(pm', robots[..i + 1])
  {
    AgreesAdd(g, g', pm, robots[i]);
    TallyStep(pm, robots, i);
  }

  /** Appending the next robot to its bucket keeps the tally. */
  lemma TallyStep(pm: map<Position, seq<Robot>>, robots: seq<Robot>, i: nat)
    requires i < |robots| && Tally(pm, robots[..i])
    ensures Tally(pm[robots[i].position := (if robots[i].position in pm then pm[robots[i].position] else []) + [robots[i]]],
                  robots[..i + 1])
  {
    ExtendTally(robots, i);
    var key := robots[i].position;
    var pm' := pm[key := (if key in pm then pm[key] else []) + [robots[i]]];
    assert pm'.Keys == Occupied(robots[..i + 1]);
    forall k | k in pm' ensures pm'[k] == RobotsAt(robots[..i + 1], k) {
      if k == key && key !in pm {
        CountPositive(robots[..i], key);
        assert RobotsAt(robots[..i], key) == [];
      }
    }
  }

  /** One more robot adds its cell to the occupied cells and itself to that bucket. */
  lemma ExtendTally(robots: seq<Robot>, i: nat)
    requires i < |robots|
    ensures Occupied(robots[..i + 1]) == Occupied(robots[..i]) + {robots[i].position}
    ensures forall k :: RobotsAt(robots[..i + 1], k)
              == RobotsAt(robots[..i], k) + (if k == robots[i].position then [robots[i]] else [])
  {
    assert robots[..i + 1] == robots[..i] + [robots[i]];
    assert robots[..i + 1][..i] == robots[..i];
  }

  /** The robots around an occupied cell stand on occupied cells that touch it, and there
      are none exactly when the cell touches no occupied cell. */
  lemma NeighborCells(sg: SpatialGrid, pm: map<Position, seq<Robot>>, robots: seq<Robot>,
                      pos: Position, neighbors: seq<Robot>)
    requires sg.Valid() && Agree(sg, pm) && Tally(pm, robots)
    requires neighbors == sg.Ring(pos, 2)
    ensures forall r :: r in neighbors ==> r.position in pm && Adjacent(r.position, pos)
    ensures neighbors == [] <==> !Touching(pm, pos)
  {
    RingAround(sg, pos);
    forall r | r in neighbors
      ensures r.position in pm && Adjacent(r.position, pos)
    {
      assert sg.Cell(r.position.x, r.position.y) != [];
    }
    if Touching(pm, pos) {
      var q :| q in pm && Adjacent(q, pos);
      TallyNonEmpty(pm, robots, q);
      var r := pm[q][0];
      assert r in sg.Cell(q.x, q.y);
      assert r.position == q;
      assert r in neighbors;
    }
    if neighbors != [] {
      assert neighbors[0] in neighbors;
      assert neighbors[0].position in pm && Adjacent(neighbors[0].position, pos);
    }
  }

  /** Taking one more key out of the unvisited ones shrinks them. */
  lemma Shrinks(keys: set<Position>, visited: set<Position>, more: set<Position>, pos: Position)
    requires visited + {pos} <= more && pos in keys && pos !in visited
    ensures |keys - more| < |keys - visited|
  {
    var small, big := keys - more, (keys - visited) - {pos};
    assert small <= big;
    assert big == small + (big - small);
    assert small * (big - small) == {};
    assert |(keys - visited) - {pos}| == |keys - visited| - 1;
  }

  /** `getConnectedGroupSize`: a depth-first walk from `pos` over occupied cells that
      touch. It visits `pos` and only cells that touch an occupied cell, and the size it
      returns is the number of robots on the cells it newly visits. */
  method ConnectedGroupSize(sg: SpatialGrid, pm: map<Position, seq<Robot>>, ghost robots: seq<Robot>,
                            pos: Position, visited: set<Position>)
    returns (size: nat, visited': set<Position>)
    requires sg.Valid() && Agree(sg, pm) && Tally(pm, robots)
    requires pos in pm && visited <= pm.Keys
    ensures visited <= visited' <= pm.Keys && pos in visited'
    ensures pos in visited ==> size == 0 && visited' == visited
    ensures size == CountIn(robots, visited' - visited)
    ensures forall k :: k in visited' - visited && k != pos ==> Touching(pm, k)
    decreases |pm.Keys - visited|
  {
    if pos in visited {
      CountNothing(robots);
      assert visited - visited == {};
      return 0, visited;
    }
    visited' := visited + {pos};
    TallyNonEmpty(pm, robots, pos);
    size := |pm[pos]|;
    assert visited' - visited == {pos};
    var neighbors := sg.GetPotentialNeighbors(pos);
    NeighborCells(sg, pm, robots, pos, neighbors);
    var i := 0;
    while i < |neighbors|
      invariant 0 <= i <= |neighbors|
      invariant visited + {pos} <= visited' <= pm.Keys
      invariant size == CountIn(robots, visited' - visited)
      invariant forall k :: k in visited' - visited && k != pos ==> Touching(pm, k)
    {
      var next := neighbors[i].position;
      if next !in visited' {
        assert neighbors[i] in neighbors;
        Shrinks(pm.Keys, visited, visited', pos);
        var s, v := ConnectedGroupSize(sg, pm, robots, next, visited');
        WalkStep(pm, robots, visited, visited', v, pos, next, size, s);
        size := size + s;
        visited' := v;
      }
      i := i + 1;
    }
  }

  /** After a nested walk from `next`, a neighbour of `pos`, the cells visited since the
      walk from `pos` began still carry its robots and still touch an occupied cell. */
  lemma WalkStep(pm: map<Position, seq<Robot>>, robots: seq<Robot>, visited: set<Position>,
                 before: set<Position>, after: set<Position>, pos: Position, next: Position, size: nat, s: nat)
    requires visited + {pos} <= before <= after
    requires pos in pm && Adjacent(next, pos) && next !in before
    requires size == CountIn(robots, before - visited) && s == CountIn(robots, after - before)
    requires forall k :: k in before - visited && k != pos ==> Touching(pm, k)
    requires forall k :: k in after - before && k != next ==> Touching(pm, k)
    ensures size + s == CountIn(robots, after - visited)
    ensures forall k :: k in after - visited && k != pos ==> Touching(pm, k)
  {
    CountUnion(robots, before - visited, after - before);
    assert after - visited == (before - visited) + (after - before);
    assert Adjacent(pos, next);
  }

  /** A cell is alone in the position map exactly when it is alone among the robots. */
  lemma LoneIff(pm: map<Position, seq<Robot>>, robots: seq<Robot>)
    requires Tally(pm, robots)
    ensures (forall k :: k in pm ==> !Lone(pm, k)) <==> AllConnected(robots)
  {
    forall k | k in pm ensures |pm[k]| == CountIn(robots, {k}) {
      TallyNonEmpty(pm, robots, k);
    }
  }

  /** A walk started from the next listed key adds robots to the visited cells, and
      every cell it visits besides that key touches an occupied cell. */
  lemma StartStep(pm: map<Position, seq<Robot>>, robots: seq<Robot>, order: seq<Position>, i: nat,
                  visited: set<Position>, v: set<Position>)
    requires i < |order| && visited <= v
    requires forall k :: k in v - visited && k != order[i] ==> Touching(pm, k)
    requires forall k :: k in visited ==> k in order[..i] || Touching(pm, k)
    ensures CountIn(robots, v) == CountIn(robots, visited) + CountIn(robots, v - visited)
    ensures forall k :: k in v ==> k in order[..i + 1] || Touching(pm, k)
  {
    CountUnion(robots, visited, v - visited);
    assert v == visited + (v - visited);
    assert order[..i + 1] == order[..i] + [order[i]];
  }

  /** A listed key that an earlier walk already visited was reached from a touching
      cell, so it is not alone. */
  lemma SkipStep(pm: map<Position, seq<Robot>>, order: seq<Position>, i: nat, visited: set<Position>)
    requires Listing(order, pm) && i < |order| && order[i] in visited
    requires forall k :: k in visited ==> k in order[..i] || Touching(pm, k)
    ensures order[i] in pm && !Lone(pm, order[i])
    ensures forall k :: k in visited ==> k in order[..i + 1] || Touching(pm, k)
  {
    assert order[i] !in order[..i];
    assert order[..i + 1] == order[..i] + [order[i]];
  }

  /** The scanning loop of `findContiguousGroups`: a walk from every listed cell not yet
      visited, keeping the largest group size and counting lone robots. */
  method ScanGroups(sg: SpatialGrid, pm: map<Position, seq<Robot>>, order: seq<Position>,
                    ghost robots: seq<Robot>)
    returns (maxGroupSize: nat, robotsWithoutNeighbors: nat)
    requires sg.Valid() && Agree(sg, pm) && Listing(order, pm) && Tally(pm, robots)
    ensures maxGroupSize <= |robots|
    ensures robotsWithoutNeighbors == 0 <==> forall j :: 0 <= j < |order| ==> !Lone(pm, order[j])
  {
    maxGroupSize := 0;
    robotsWithoutNeighbors := 0;
    var visited: set<Position> := {};
    var i := 0;
    while i < |order|
      invariant 0 <= i <= |order|
      invariant visited <= pm.Keys
      invariant maxGroupSize <= CountIn(robots, visited)
      invariant forall k :: k in visited ==> k in order[..i] || Touching(pm, k)
      invariant robotsWithoutNeighbors == 0 <==> forall j :: 0 <= j < i ==> !Lone(pm, order[j])
    {
      var key := order[i];
      ghost var lone := false;
      if key !in visited {
        var size, v := ConnectedGroupSize(sg, pm, robots, key, visited);
        StartStep(pm, robots, order, i, visited, v);
        visited := v;
        maxGroupSize := if size > maxGroupSize then size else maxGroupSize;
        var neighbors := sg.GetPotentialNeighbors(key);
        NeighborCells(sg, pm, robots, key, neighbors);
        if |pm[key]| == 1 && |neighbors| == 0 {
          robotsWithoutNeighbors := robotsWithoutNeighbors + 1;
          lone := true;
        }
      } else {
        SkipStep(pm, order, i, visited);
      }
      LoneStep(pm, order, i, lone);
      i := i + 1;
    }
  }

  /** Scanning one more listed cell: no scanned cell is lone exactly when none was before
      and this one is not. */
  lemma LoneStep(pm: map<Position, seq<Robot>>, order: seq<Position>, i: nat, lone: bool)
    requires Listing(order, pm) && i < |order| && order[i] in pm
    requires lone <==> Lone(pm, order[i])
    ensures (forall j :: 0 <= j < i + 1 ==> !Lone(pm, order[j]))
            <==> (forall j :: 0 <= j < i ==> !Lone(pm, order[j])) && !lone
  {
  }

  /** `findContiguousGroups`: the largest connected group never exceeds the number of
      robots, `allConnected` says that no robot stands alone, and `positions` is the
      position map of the robots. */
  method FindContiguousGroups(robots: seq<Robot>)
    returns (maxGroupSize: nat, allConnected: bool, positions: map<Position, seq<Robot>>)
    ensures maxGroupSize <= |robots|
    ensures allConnected <==> AllConnected(robots)
    ensures positions == PositionMap(robots)
  {
    var sg, pm, order := BuildMaps(robots);
    var robotsWithoutNeighbors;
    maxGroupSize, robotsWithoutNeighbors := ScanGroups(sg, pm, order, robots);
    allConnected := robotsWithoutNeighbors == 0;
    positions := pm;
    ListedLone(pm, order, robots);
    TallyMap(pm, robots);
  }

  /** A tally of the robots is their position map. */
  lemma TallyMap(pm: map<Position, seq<Robot>>, robots: seq<Robot>)
    requires Tally(pm, robots)
    ensures pm == PositionMap(robots)
  {
  }

  /** Every listed cell is a cell of the map, so "no listed cell is lone" is "no robot
      stands alone". */
  lemma ListedLone(pm: map<Position, seq<Robot>>, order: seq<Position>, robots: seq<Robot>)
    requires Listing(order, pm) && Tally(pm, robots)
    ensures (forall j :: 0 <= j < |order| ==> !Lone(pm, order[j])) <==> AllConnected(robots)
  {
    LoneIff(pm, robots);
    if forall j :: 0 <= j < |order| ==> !Lone(pm, order[j]) {
      forall k | k in pm ensures !Lone(pm, k) {
        var j :| 0 <= j < |order| && order[j] == k;
      }
    }
  }

  // ---------------------------------------------------------------- part 2

  /** After `t` seconds on the puzzle grid, no robot stands alone. */
  ghost predicate ConnectedAt(robots: seq<Robot>, t: nat) {
    AllConnected(RobotsAfter(robots, t, PuzzleWidth, PuzzleHeight))
  }

  /** The simulation loop of `solve_pt2`: the first second, up to the time limit, at
      which no robot stands alone on the puzzle grid, or -1 when there is none. */
  method FirstConnected(start: seq<Robot>) returns (r: int)
    ensures r == -1 ==> forall t: nat :: t <= SimulationTimePt2 ==> !ConnectedAt(start, t)
    ensures r != -1 ==> 0 <= r <= SimulationTimePt2 && ConnectedAt(start, r)
                        && forall t: nat :: t < r ==> !ConnectedAt(start, t)
  {
    var robots := start;
    var second := 0;
    assert robots == RobotsAfter(start, 0, PuzzleWidth, PuzzleHeight);
    while second <= SimulationTimePt2
      invariant 0 <= second <= SimulationTimePt2 + 1
      invariant robots == RobotsAfter(start, second, PuzzleWidth, PuzzleHeight)
      invariant forall t: nat :: t < second ==> !ConnectedAt(start, t)
    {
      var maxGroupSize, allConnected, positions := FindContiguousGroups(robots);
      if allConnected {
        return second;
      }
      var next := StepAll(robots, PuzzleWidth, PuzzleHeight);
      StepRobotsAfter(start, second, PuzzleWidth, PuzzleHeight, next);
      robots := next;
      second := second + 1;
    }
    return -1;
  }

  /** `solve_pt2`: a parse error, or the result of the simulation loop. */
  method SolvePt2(input: string) returns (r: Result<int>)
    ensures ParseInput(input).Err? ==> r == Err(ParseInput(input).message)
    ensures ParseInput(input).Ok? ==> r.Ok?
    ensures r.Ok? && r.value == -1 ==>
      forall t: nat :: t <= SimulationTimePt2 ==> !ConnectedAt(ParseInput(input).value, t)
    ensures r.Ok? && r.value != -1 ==>
      0 <= r.value <= SimulationTimePt2 && ConnectedAt(ParseInput(input).value, r.value)
      && forall t: nat :: t < r.value ==> !ConnectedAt(ParseInput(input).value, t)
  {
    var parsed := ParseInput(input);
    if parsed.Err? {
      return Err(parsed.message);
    }
    var second := FirstConnected(parsed.value);
    return Ok(second);
  }
}
