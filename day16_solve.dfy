/** Day 16, part 1: `solve` searches the maze cheapest item first. Each turn it takes the
    cheapest queued item; one on the end cell lowers the best score and goes no further,
    and any other is expanded unless its cell and facing were already expanded at a score
    no higher. */
module Day16Solve {
  import opened JsText
  import opened Day16Moves

  /** `Number.MAX_SAFE_INTEGER`, the best score before any item reaches the end. */
  const MaxSafeInteger: int := 9007199254740991

  // ---------------------------------------------------------------------------------
  // Steps between states

  /** The state after step `i` from `s`: 0 a step forward, 1 a left turn, 2 a right turn. */
  function Next(s: State, i: nat): State
    requires i < 3
  {
    if i == 0 then State(Ahead(s.cell, s.dir), s.dir)
    else if i == 1 then State(s.cell, Left(s.dir))
    else State(s.cell, Right(s.dir))
  }

  /** The state from which step `i` leads to `s`. */
  function Prev(s: State, i: nat): State
    requires i < 3
  {
    if i == 0 then State(Ahead(s.cell, Left(Left(s.dir))), s.dir)
    else if i == 1 then State(s.cell, Right(s.dir))
    else State(s.cell, Left(s.dir))
  }

  /** A step forward needs an open cell ahead; a turn is always allowed. */
  predicate Allowed(grid: seq<string>, s: State, i: nat)
    requires grid != []
  {
    i != 0 || Open(grid, Ahead(s.cell, s.dir))
  }

  function Weight(i: nat): nat { if i == 0 then 1 else 1000 }

  /** `Prev` undoes `Next` and the other way round. */
  lemma NextPrev(s: State, i: nat)
    requires i < 3
    ensures Prev(Next(s, i), i) == s && Next(Prev(s, i), i) == s
  {
    var c, d := s.cell, s.dir;
    if d == North {
    } else if d == East {
    } else if d == South {
    } else {
    }
  }

  /** One successor as a step: which step it is, and that it was allowed. */
  lemma SuccessorStep(grid: seq<string>, x: Position, q: Position) returns (i: nat)
    requires grid != [] && q in Successors(grid, x)
    ensures i < 3 && Allowed(grid, StateOf(x), i)
    ensures StateOf(q) == Next(StateOf(x), i) && q.score == x.score + Weight(i)
  {
    SuccessorKinds(grid, x, q);
    if q.score == x.score + 1 {
      i := 0;
    } else if q.direction == Left(x.direction) {
      i := 1;
    } else {
      i := 2;
    }
  }

  /** One allowed step as a successor. */
  lemma StepSuccessor(grid: seq<string>, x: Position, i: nat) returns (q: Position)
    requires grid != [] && i < 3 && Allowed(grid, StateOf(x), i)
    ensures q in Successors(grid, x)
    ensures StateOf(q) == Next(StateOf(x), i) && q.score == x.score + Weight(i)
  {
    var m, r := Move(x, grid), GetRotations(x);
    assert Successors(grid, x) == m + r;
    if i == 0 {
      q := m[0];
    } else {
      q := r[i - 1];
    }
  }

  // ---------------------------------------------------------------------------------
  // Walks that `solve` can take

  /** `s` is reached from `init` at a score of exactly `c` by allowed steps, none of them
      taken from the end cell (items there are never expanded). */
  ghost predicate Reach(grid: seq<string>, init: State, end: Point, s: State, c: nat)
    requires grid != []
    decreases c
  {
    (s == init && c == 0) ||
    (exists i :: 0 <= i < 3 && Weight(i) <= c && Allowed(grid, Prev(s, i), i) &&
       Prev(s, i).cell != end && Reach(grid, init, end, Prev(s, i), c - Weight(i)))
  }

  /** An allowed step from a reached state off the end cell reaches the next state. */
  lemma ReachNext(grid: seq<string>, init: State, end: Point, s: State, c: nat, i: nat)
    requires grid != [] && i < 3 && Reach(grid, init, end, s, c)
    requires s.cell != end && Allowed(grid, s, i)
    ensures Reach(grid, init, end, Next(s, i), c + Weight(i))
  {
    NextPrev(s, i);
  }

  /** `m` is the cheapest score at which the end cell is reached in any facing; with none
      below `MAX_SAFE_INTEGER`, it is `MAX_SAFE_INTEGER`. */
  ghost predicate Cheapest(grid: seq<string>, init: State, end: Point, m: int)
    requires grid != []
  {
    m <= MaxSafeInteger &&
    (m < MaxSafeInteger ==> m >= 0 && exists d: Dir :: Reach(grid, init, end, State(end, d), m)) &&
    (forall d: Dir, c: nat :: Reach(grid, init, end, State(end, d), c) ==> m <= c)
  }

  // ---------------------------------------------------------------------------------
  // The invariant of the search loop

  /** The states the search can ever hold: a cell inside the first row's width and the row
      count, or the start cell, in any facing. */
  ghost function Space(grid: seq<string>, start: Point): set<State>
    requires grid != []
  {
    (set x: int, y: int, d: Dir | 0 <= x < |grid[0]| && 0 <= y < |grid| && 0 <= d < 4 :: State(Point(x, y), d)) +
    (set d: Dir | 0 <= d < 4 :: State(start, d))
  }

  ghost predicate Inside(grid: seq<string>, start: Point, s: State)
    requires grid != []
  {
    (0 <= s.cell.x < |grid[0]| && 0 <= s.cell.y < |grid|) || s.cell == start
  }

  lemma InSpace(grid: seq<string>, start: Point, s: State)
    requires grid != [] && Inside(grid, start, s)
    ensures s in Space(grid, start)
  {
    if 0 <= s.cell.x < |grid[0]| && 0 <= s.cell.y < |grid| {
      assert s == State(Point(s.cell.x, s.cell.y), s.dir);
    }
  }

  /** Every queued item was reached at its score. */
  ghost predicate Sound(grid: seq<string>, init: State, end: Point, queue: seq<Position>)
    requires grid != []
  {
    forall p :: p in queue ==> Reach(grid, init, end, StateOf(p), p.score)
  }

  /** No expanded state was expanded at a score above any queued item's. */
  predicate Floor(visited: map<State, nat>, queue: seq<Position>) {
    forall s, p :: s in visited && p in queue ==> visited[s] <= p.score
  }

  /** Queued items and expanded states stay in the finite space; no expanded state is on the
      end cell. */
  ghost predicate Kept(grid: seq<string>, start: Point, end: Point, visited: map<State, nat>, queue: seq<Position>)
    requires grid != []
  {
    (forall p :: p in queue ==> Inside(grid, start, StateOf(p))) &&
    (forall s :: s in visited ==> Inside(grid, start, s) && s.cell != end)
  }

  /** State `t` at score `v` needs no more work: the best score already covers it on the end
      cell, or `t` was expanded at a score no higher. */
  predicate Handled(end: Point, visited: map<State, nat>, minScore: int, t: State, v: nat) {
    (t.cell == end && minScore <= v) || (t in visited && visited[t] <= v)
  }

  /** State `t` at score `v` is queued or handled. */
  predicate Covered(end: Point, visited: map<State, nat>, minScore: int, queue: seq<Position>, t: State, v: nat) {
    (exists p :: p in queue && StateOf(p) == t && p.score == v) || Handled(end, visited, minScore, t, v)
  }

  /** Every allowed step out of an expanded state is covered at the score it leads to. */
  ghost predicate Expanded(grid: seq<string>, end: Point, visited: map<State, nat>, minScore: int, queue: seq<Position>)
    requires grid != []
  {
    forall s, i :: s in visited && 0 <= i < 3 && Allowed(grid, s, i) ==>
      Covered(end, visited, minScore, queue, Next(s, i), visited[s] + Weight(i))
  }

  /** The best score is `MAX_SAFE_INTEGER` or the score of a walk to the end cell. */
  ghost predicate Attained(grid: seq<string>, init: State, end: Point, minScore: int)
    requires grid != []
  {
    minScore <= MaxSafeInteger &&
    (minScore < MaxSafeInteger ==> minScore >= 0 && exists d: Dir :: Reach(grid, init, end, State(end, d), minScore))
  }

  ghost predicate Searching(grid: seq<string>, start: Point, end: Point, visited: map<State, nat>, minScore: int, queue: seq<Position>)
    requires grid != []
  {
    var init := State(start, East);
    Sound(grid, init, end, queue) && Floor(visited, queue) && Kept(grid, start, end, visited, queue) &&
    Covered(end, visited, minScore, queue, init, 0) && Expanded(grid, end, visited, minScore, queue) &&
    Attained(grid, init, end, minScore)
  }

  // ---------------------------------------------------------------------------------
  // One turn of the loop

  /** Taking item k out of the queue keeps every other item. */
  lemma Removed(queue: seq<Position>, k: nat)
    requires k < |queue|
    ensures forall p :: p in queue[..k] + queue[k + 1..] ==> p in queue
    ensures forall p :: p in queue && p != queue[k] ==> p in queue[..k] + queue[k + 1..]
  {
    assert queue == queue[..k] + [queue[k]] + queue[k + 1..];
  }

  /** Handling only grows: a best score that drops and a newly expanded state keep what was
      handled handled. */
  lemma HandledGrows(end: Point, visited: map<State, nat>, minScore: int, visited': map<State, nat>, minScore': int, t: State, v: nat)
    requires minScore' <= minScore
    requires forall s :: s in visited ==> s in visited' && visited'[s] == visited[s]
    ensures Handled(end, visited, minScore, t, v) ==> Handled(end, visited', minScore', t, v)
  {
  }

  /** Coverage survives the turn when the taken item ends up handled. */
  lemma CoveredTurn(end: Point, visited: map<State, nat>, minScore: int, queue: seq<Position>, k: nat,
                    visited': map<State, nat>, minScore': int, pushes: seq<Position>, t: State, v: nat)
    requires k < |queue| && minScore' <= minScore
    requires forall s :: s in visited ==> s in visited' && visited'[s] == visited[s]
    requires Handled(end, visited', minScore', StateOf(queue[k]), queue[k].score)
    requires Covered(end, visited, minScore, queue, t, v)
    ensures Covered(end, visited', minScore', queue[..k] + queue[k + 1..] + pushes, t, v)
  {
    var rest := queue[..k] + queue[k + 1..];
    Removed(queue, k);
    HandledGrows(end, visited, minScore, visited', minScore', t, v);
    if p :| p in queue && StateOf(p) == t && p.score == v {
      if p != queue[k] {
        assert p in rest + pushes;
      }
    }
  }

  /** The loop starts with the start item queued, nothing expanded and no best score. */
  lemma SearchStarts(grid: seq<string>, start: Point, end: Point)
    requires grid != []
    ensures Searching(grid, start, end, map[], MaxSafeInteger, [Position(start.x, start.y, East, 0, {start})])
  {
    var item := Position(start.x, start.y, East, 0, {start});
    assert StateOf(item) == State(start, East);
  }

  /** The taken item on the end cell: the best score drops to its score if that is lower. */
  lemma TurnAtEnd(grid: seq<string>, start: Point, end: Point, visited: map<State, nat>, minScore: int,
                  queue: seq<Position>, k: nat, minScore': int)
    requires grid != [] && k < |queue| && Searching(grid, start, end, visited, minScore, queue)
    requires CellOf(queue[k]) == end
    requires minScore' == if queue[k].score < minScore then queue[k].score else minScore
    ensures Searching(grid, start, end, visited, minScore', queue[..k] + queue[k + 1..])
  {
    var init, x, rest := State(start, East), queue[k], queue[..k] + queue[k + 1..];
    Removed(queue, k);
    assert rest + [] == rest;
    assert Reach(grid, init, end, State(end, x.direction), x.score);
    forall s, i | s in visited && 0 <= i < 3 && Allowed(grid, s, i)
      ensures Covered(end, visited, minScore', rest, Next(s, i), visited[s] + Weight(i))
    {
      CoveredTurn(end, visited, minScore, queue, k, visited, minScore', [], Next(s, i), visited[s] + Weight(i));
    }
    CoveredTurn(end, visited, minScore, queue, k, visited, minScore', [], init, 0);
  }

  /** The taken item's state was already expanded at a score no higher: it is dropped. */
  lemma TurnSkipped(grid: seq<string>, start: Point, end: Point, visited: map<State, nat>, minScore: int,
                    queue: seq<Position>, k: nat)
    requires grid != [] && k < |queue| && Searching(grid, start, end, visited, minScore, queue)
    requires StateOf(queue[k]) in visited && visited[StateOf(queue[k])] <= queue[k].score
    ensures Searching(grid, start, end, visited, minScore, queue[..k] + queue[k + 1..])
  {
    var init, rest := State(start, East), queue[..k] + queue[k + 1..];
    Removed(queue, k);
    assert rest + [] == rest;
    forall s, i | s in visited && 0 <= i < 3 && Allowed(grid, s, i)
      ensures Covered(end, visited, minScore, rest, Next(s, i), visited[s] + Weight(i))
    {
      CoveredTurn(end, visited, minScore, queue, k, visited, minScore, [], Next(s, i), visited[s] + Weight(i));
    }
    CoveredTurn(end, visited, minScore, queue, k, visited, minScore, [], init, 0);
  }

  /** The cheapest item, off the end cell and not yet expanded, is expanded: its state is
      recorded at its score and its successors are queued. */
  lemma TurnExpands(grid: seq<string>, start: Point, end: Point, visited: map<State, nat>, minScore: int,
                    queue: seq<Position>, k: nat)
    requires grid != [] && k < |queue| && Searching(grid, start, end, visited, minScore, queue)
    requires forall p :: p in queue ==> queue[k].score <= p.score
    requires CellOf(queue[k]) != end
    requires !(StateOf(queue[k]) in visited && visited[StateOf(queue[k])] <= queue[k].score)
    ensures StateOf(queue[k]) !in visited
    ensures var x := queue[k];
      Searching(grid, start, end, visited[StateOf(x) := x.score], minScore, queue[..k] + queue[k + 1..] + Successors(grid, x))
  {
    var x := queue[k];
    assert StateOf(x) !in visited;
    ExpandQueue(grid, start, end, visited, minScore, queue, k);
    ExpandCovered(grid, start, end, visited, minScore, queue, k);
  }

  /** The queue half of `TurnExpands`: the pushes are reached, stay in the space and cost no
      less than the expanded item. */
  lemma ExpandQueue(grid: seq<string>, start: Point, end: Point, visited: map<State, nat>, minScore: int,
                    queue: seq<Position>, k: nat)
    requires grid != [] && k < |queue| && Searching(grid, start, end, visited, minScore, queue)
    requires forall p :: p in queue ==> queue[k].score <= p.score
    requires CellOf(queue[k]) != end && StateOf(queue[k]) !in visited
    ensures var x := queue[k]; var queue' := queue[..k] + queue[k + 1..] + Successors(grid, x);
      Sound(grid, State(start, East), end, queue') &&
      Floor(visited[StateOf(x) := x.score], queue') &&
      Kept(grid, start, end, visited[StateOf(x) := x.score], queue')
  {
    var init, x, rest := State(start, East), queue[k], queue[..k] + queue[k + 1..];
    var key, pushes := StateOf(x), Successors(grid, x);
    var visited', queue' := visited[key := x.score], rest + pushes;
    Removed(queue, k);
    PushesSound(grid, init, end, x);
    forall p: Position | p in queue'
      ensures Reach(grid, init, end, StateOf(p), p.score) && Inside(grid, start, StateOf(p)) && x.score <= p.score
    {
      if p in pushes {
        SuccessorKinds(grid, x, p);
      }
    }
  }

  /** The coverage half of `TurnExpands`: the expanded state's steps are all pushed, and what
      was covered stays covered. */
  lemma ExpandCovered(grid: seq<string>, start: Point, end: Point, visited: map<State, nat>, minScore: int,
                      queue: seq<Position>, k: nat)
    requires grid != [] && k < |queue| && Searching(grid, start, end, visited, minScore, queue)
    requires StateOf(queue[k]) !in visited
    ensures var x := queue[k]; var queue' := queue[..k] + queue[k + 1..] + Successors(grid, x);
      Expanded(grid, end, visited[StateOf(x) := x.score], minScore, queue') &&
      Covered(end, visited[StateOf(x) := x.score], minScore, queue', State(start, East), 0)
  {
    var init, x, rest := State(start, East), queue[k], queue[..k] + queue[k + 1..];
    var key, pushes := StateOf(x), Successors(grid, x);
    var visited', queue' := visited[key := x.score], rest + pushes;
    forall s, i | s in visited' && 0 <= i < 3 && Allowed(grid, s, i)
      ensures Covered(end, visited', minScore, queue', Next(s, i), visited'[s] + Weight(i))
    {
      if s == key {
        var q := StepSuccessor(grid, x, i);
        assert q in queue';
      } else {
        CoveredTurn(end, visited, minScore, queue, k, visited', minScore, pushes, Next(s, i), visited[s] + Weight(i));
      }
    }
    CoveredTurn(end, visited, minScore, queue, k, visited', minScore, pushes, init, 0);
  }

  /** Successors of a reached item off the end cell are reached at their scores. */
  lemma PushesSound(grid: seq<string>, init: State, end: Point, x: Position)
    requires grid != [] && Reach(grid, init, end, StateOf(x), x.score) && CellOf(x) != end
    ensures forall q :: q in Successors(grid, x) ==> Reach(grid, init, end, StateOf(q), q.score)
  {
    forall q | q in Successors(grid, x) ensures Reach(grid, init, end, StateOf(q), q.score) {
      var i := SuccessorStep(grid, x, q);
      ReachNext(grid, init, end, StateOf(x), x.score, i);
    }
  }

  /** With the queue empty, every state reached at any score is handled at that score. */
  lemma {:induction false} AllHandled(grid: seq<string>, start: Point, end: Point, visited: map<State, nat>,
                                      minScore: int, t: State, c: nat)
    requires grid != [] && Searching(grid, start, end, visited, minScore, [])
    requires Reach(grid, State(start, East), end, t, c)
    ensures Handled(end, visited, minScore, t, c)
    decreases c
  {
    var init := State(start, East);
    if i :| 0 <= i < 3 && Weight(i) <= c && Allowed(grid, Prev(t, i), i) &&
            Prev(t, i).cell != end && Reach(grid, init, end, Prev(t, i), c - Weight(i)) {
      var p := Prev(t, i);
      AllHandled(grid, start, end, visited, minScore, p, c - Weight(i));
      NextPrev(t, i);
      assert Covered(end, visited, minScore, [], Next(p, i), visited[p] + Weight(i));
    }
  }

  /** When the queue runs dry, the best score is the cheapest score of any walk to the end. */
  lemma SearchDone(grid: seq<string>, start: Point, end: Point, visited: map<State, nat>, minScore: int)
    requires grid != [] && Searching(grid, start, end, visited, minScore, [])
    ensures Cheapest(grid, State(start, East), end, minScore)
  {
    forall d: Dir, c: nat | Reach(grid, State(start, East), end, State(end, d), c) ensures minScore <= c {
      AllHandled(grid, start, end, visited, minScore, State(end, d), c);
    }
  }

  /** Recording one more state of the space leaves fewer unrecorded. */
  lemma Shrinks(space: set<State>, keys: set<State>, s: State)
    requires s in space && s !in keys
    ensures |space - (keys + {s})| < |space - keys|
  {
    assert space - (keys + {s}) == (space - keys) - {s};
  }

  // ---------------------------------------------------------------------------------
  // The search

  /** `queue.sort((a, b) => a.score - b.score)` then `queue.shift()`: the stable sort puts
      the earliest item of least score first. */
  method CheapestIndex(queue: seq<Position>) returns (k: nat)
    requires queue != []
    ensures k < |queue|
    ensures forall p :: p in queue ==> queue[k].score <= p.score
    ensures forall j :: 0 <= j < k ==> queue[j].score > queue[k].score
  {
    k := 0;
    for j := 1 to |queue|
      invariant k < j
      invariant forall i :: 0 <= i < j ==> queue[k].score <= queue[i].score
      invariant forall i :: 0 <= i < k ==> queue[i].score > queue[k].score
    {
      if queue[j].score < queue[k].score {
        k := j;
      }
    }
  }

  /** One turn of the search loop of `solve`: take the cheapest item; on the end cell it
      lowers the best score; otherwise it is dropped when its state was expanded at a score
      no higher, and expanded else. */
  method Turn(grid: seq<string>, start: Point, end: Point, queue: seq<Position>, visited: map<State, nat>, minScore: int)
    returns (queue': seq<Position>, visited': map<State, nat>, minScore': int)
    requires grid != [] && queue != [] && Searching(grid, start, end, visited, minScore, queue)
    ensures Searching(grid, start, end, visited', minScore', queue')
    ensures visited'.Keys == visited.Keys ==> |queue'| < |queue|
    ensures visited'.Keys == visited.Keys ||
            exists key :: key in Space(grid, start) - visited.Keys && visited'.Keys == visited.Keys + {key}
  {
    var k := CheapestIndex(queue);
    var current := queue[k];
    visited' := visited;
    if current.x == end.x && current.y == end.y {
      minScore' := if current.score < minScore then current.score else minScore;
      TurnAtEnd(grid, start, end, visited, minScore, queue, k, minScore');
      queue' := queue[..k] + queue[k + 1..];
      return;
    }
    minScore' := minScore;
    var key := StateOf(current);
    if key in visited && visited[key] <= current.score {
      TurnSkipped(grid, start, end, visited, minScore, queue, k);
      queue' := queue[..k] + queue[k + 1..];
      return;
    }
    TurnExpands(grid, start, end, visited, minScore, queue, k);
    InSpace(grid, start, key);
    visited' := visited[key := current.score];
    assert visited'.Keys == visited.Keys + {key};
    queue' := queue[..k] + queue[k + 1..] + Move(current, grid) + GetRotations(current);
  }

  /** The search loop of `solve`, from `start` facing East towards `end`. */
  method Search(grid: seq<string>, start: Point, end: Point) returns (minScore: int)
    requires grid != []
    ensures Cheapest(grid, State(start, East), end, minScore)
  {
    var queue := [Position(start.x, start.y, East, 0, {start})];
    var visited: map<State, nat> := map[];
    minScore := MaxSafeInteger;
    SearchStarts(grid, start, end);
    ghost var space := Space(grid, start);
    while queue != []
      invariant Searching(grid, start, end, visited, minScore, queue)
      decreases |space - visited.Keys|, |queue|
    {
      ghost var keys := visited.Keys;
      queue, visited, minScore := Turn(grid, start, end, queue, visited, minScore);
      if visited.Keys != keys {
        var key :| key in space - keys && visited.Keys == keys + {key};
        Shrinks(space, keys, key);
      }
    }
    SearchDone(grid, start, end, visited, minScore);
  }

  /** `solve`: the cheapest score of a walk from `S`, facing East, to `E`, or
      `MAX_SAFE_INTEGER` when `E` cannot be reached. */
  method Solve(input: string) returns (minScore: int, ghost start: Point, ghost end: Point)
    ensures LastSeen(Rows(input), 'S', start, |Rows(input)|, 0)
    ensures LastSeen(Rows(input), 'E', end, |Rows(input)|, 0)
    ensures Cheapest(Rows(input), State(start, East), end, minScore)
  {
    var grid := Rows(input);
    var s, e := FindStartEnd(grid);
    start, end := s, e;
    minScore := Search(grid, s, e);
  }
}
