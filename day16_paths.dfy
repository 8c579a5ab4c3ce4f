/** Day 16, part 2: `generateOptimalScoreMap` prices every cell and facing by its cost to
    the end, and `findAllOptimalPaths` collects the tiles of every walk that reaches the end
    at exactly the target score. */
module Day16Paths {
  import opened JsText
  import opened Day16Moves
  import opened Day16Solve

  // ---------------------------------------------------------------------------------
  // generateOptimalScoreMap

  /** The cell the backwards search steps to from `c` for facing `d` (the `switch` on `dir`):
      the cell from which one step facing `d` lands on `c`. */
  function Behind(c: Point, d: Dir): (r: Point)
    ensures Ahead(r, d) == c && r != c
  {
    if d == North then Point(c.x, c.y + 1)
    else if d == South then Point(c.x, c.y - 1)
    else if d == East then Point(c.x - 1, c.y)
    else Point(c.x + 1, c.y)
  }

  /** `rotationCost`: 1000 whenever the facing changes, whichever way. */
  function TurnCost(d: Dir, facing: Dir): nat { if d != facing then 1000 else 0 }

  /** The cost the score map prices: from state `s`, `v` pays for reaching the end cell by
      stepping ahead onto cells, each step 1 plus 1000 when the facing changes after it. */
  ghost predicate ToEnd(grid: seq<string>, end: Point, s: State, v: nat)
    requires grid != []
    decreases v
  {
    (s.cell == end && v == 0) ||
    (Open(grid, s.cell) &&
     exists f: Dir :: 1 + TurnCost(s.dir, f) <= v && ToEnd(grid, end, State(Ahead(s.cell, s.dir), f), v - 1 - TurnCost(s.dir, f)))
  }

  /** Stepping back from a priced state onto an open cell prices that cell and facing. */
  lemma ToEndBack(grid: seq<string>, end: Point, t: State, v: nat, d: Dir)
    requires grid != [] && ToEnd(grid, end, t, v) && Open(grid, Behind(t.cell, d))
    ensures ToEnd(grid, end, State(Behind(t.cell, d), d), v + 1 + TurnCost(d, t.dir))
  {
    var s := State(Behind(t.cell, d), d);
    assert State(Ahead(s.cell, s.dir), t.dir) == t;
  }

  /** Every step back from `t` onto an open cell is priced no higher than through `t`. */
  predicate Relaxed(grid: seq<string>, m: map<State, nat>, t: State)
    requires grid != [] && t in m
  {
    forall d: Dir :: Open(grid, Behind(t.cell, d)) ==>
      State(Behind(t.cell, d), d) in m && m[State(Behind(t.cell, d), d)] <= m[t] + 1 + TurnCost(d, t.dir)
  }

  /** Entries more than one above the last popped score: the only ones a later pop can
      still lower. */
  function Loose(m: map<State, nat>, lastPop: nat): set<State> {
    set s | s in m && m[s] > lastPop + 1
  }

  predicate EndsAtZero(m: map<State, nat>, end: Point) {
    forall d: Dir :: State(end, d) in m && m[State(end, d)] == 0
  }

  /** The invariant of the relaxation loop. */
  ghost predicate Pricing(grid: seq<string>, end: Point, m: map<State, nat>, queue: seq<Position>, lastPop: nat)
    requires grid != []
  {
    EndsAtZero(m, end) &&
    (forall s :: s in m ==> ToEnd(grid, end, s, m[s]) && Inside(grid, end, s) && m[s] <= lastPop + 1001) &&
    (forall p :: p in queue ==> ToEnd(grid, end, StateOf(p), p.score) && lastPop <= p.score) &&
    (forall p :: p in queue ==> StateOf(p) in m && m[StateOf(p)] <= p.score) &&
    (forall t :: t in m ==> Relaxed(grid, m, t) || exists p :: p in queue && StateOf(p) == t && p.score == m[t])
  }

  /** Entries only ever decrease, and none disappears. */
  predicate Lowered(m0: map<State, nat>, m: map<State, nat>) {
    forall s :: s in m0 ==> s in m && m[s] <= m0[s]
  }

  /** The initial loop: every facing on the end cell is queued at 0 and priced 0. */
  method SeedEnd(grid: seq<string>, end: Point) returns (m: map<State, nat>, queue: seq<Position>)
    requires grid != []
    ensures Pricing(grid, end, m, queue, 0)
    ensures m.Keys == set d: Dir | 0 <= d < 4 :: State(end, d)
  {
    m, queue := map[], [];
    for dir := 0 to 4
      invariant m.Keys == set d: Dir | 0 <= d < dir :: State(end, d)
      invariant forall s :: s in m ==> m[s] == 0 && s.cell == end
      invariant forall p :: p in queue ==> CellOf(p) == end && p.score == 0 && StateOf(p) in m
      invariant forall d: Dir :: d < dir ==> Position(end.x, end.y, d, 0, {}) in queue
    {
      queue := queue + [Position(end.x, end.y, dir, 0, {})];
      m := m[State(end, dir) := 0];
    }
    forall t | t in m ensures exists p :: p in queue && StateOf(p) == t && p.score == m[t] {
      assert StateOf(Position(end.x, end.y, t.dir, 0, {})) == t;
    }
  }

  /** One facing of the backwards step: the entry for the cell behind, facing `dir`, is
      lowered and queued when the step through `current` improves it (an absent entry is
      `Infinity`, which every score improves). */
  ghost predicate Update(grid: seq<string>, current: Position, dir: Dir,
                         m: map<State, nat>, queue: seq<Position>, m': map<State, nat>, queue': seq<Position>)
    requires grid != []
  {
    var from := Behind(CellOf(current), dir);
    var key := State(from, dir);
    var score := current.score + 1 + TurnCost(dir, current.direction);
    if Open(grid, from) && (key !in m || score < m[key]) then
      m' == m[key := score] && queue' == queue + [Position(from.x, from.y, dir, score, {})]
    else
      m' == m && queue' == queue
  }

  /** What holds of the entries and the queue throughout a pop, with `popped` its score. */
  ghost predicate Priced(grid: seq<string>, end: Point, m: map<State, nat>, queue: seq<Position>, popped: nat)
    requires grid != []
  {
    (forall s :: s in m ==> ToEnd(grid, end, s, m[s]) && Inside(grid, end, s) && m[s] <= popped + 1001) &&
    (forall p :: p in queue ==> ToEnd(grid, end, StateOf(p), p.score) && popped <= p.score) &&
    (forall p :: p in queue ==> StateOf(p) in m && m[StateOf(p)] <= p.score)
  }

  /** Every entry but `t` is relaxed or waiting in the queue at its price. */
  ghost predicate PendingBut(grid: seq<string>, m: map<State, nat>, queue: seq<Position>, t: State)
    requires grid != []
  {
    forall u :: u in m && u != t ==> Relaxed(grid, m, u) || exists p :: p in queue && StateOf(p) == u && p.score == m[u]
  }

  /** The steps back from `t` for the facings below `dir` are relaxed. */
  ghost predicate RelaxedBelow(grid: seq<string>, m: map<State, nat>, t: State, dir: int)
    requires grid != [] && t in m
  {
    forall d: Dir :: d < dir && Open(grid, Behind(t.cell, d)) ==>
      State(Behind(t.cell, d), d) in m && m[State(Behind(t.cell, d), d)] <= m[t] + 1 + TurnCost(d, t.dir)
  }

  /** A step back keeps every entry priced by a walk, inside the space and within 1001 of
      the popped score; entries only go down. */
  lemma StepEntries(grid: seq<string>, end: Point, current: Position, dir: Dir,
                    m: map<State, nat>, queue: seq<Position>, m': map<State, nat>, queue': seq<Position>)
    requires grid != [] && ToEnd(grid, end, StateOf(current), current.score)
    requires forall s :: s in m ==> ToEnd(grid, end, s, m[s]) && Inside(grid, end, s) && m[s] <= current.score + 1001
    requires Update(grid, current, dir, m, queue, m', queue')
    ensures forall s :: s in m' ==> ToEnd(grid, end, s, m'[s]) && Inside(grid, end, s) && m'[s] <= current.score + 1001
    ensures Lowered(m, m') && m'.Keys <= m.Keys + Space(grid, end)
  {
    var from := Behind(CellOf(current), dir);
    var key := State(from, dir);
    var score := current.score + 1 + TurnCost(dir, current.direction);
    if Open(grid, from) && (key !in m || score < m[key]) {
      ToEndBack(grid, end, StateOf(current), current.score, dir);
      InSpace(grid, end, key);
      forall s | s in m' && s != key ensures m'[s] == m[s] {
      }
    }
  }

  /** A step back keeps every queued item priced by a walk, no cheaper than the popped one,
      and no cheaper than its entry. */
  lemma StepQueue(grid: seq<string>, end: Point, current: Position, dir: Dir,
                  m: map<State, nat>, queue: seq<Position>, m': map<State, nat>, queue': seq<Position>)
    requires grid != [] && ToEnd(grid, end, StateOf(current), current.score)
    requires forall p :: p in queue ==> ToEnd(grid, end, StateOf(p), p.score) && current.score <= p.score
    requires forall p :: p in queue ==> StateOf(p) in m && m[StateOf(p)] <= p.score
    requires Update(grid, current, dir, m, queue, m', queue')
    ensures forall p :: p in queue' ==> ToEnd(grid, end, StateOf(p), p.score) && current.score <= p.score
    ensures forall p :: p in queue' ==> StateOf(p) in m' && m'[StateOf(p)] <= p.score
  {
    var from := Behind(CellOf(current), dir);
    var key := State(from, dir);
    var score := current.score + 1 + TurnCost(dir, current.direction);
    if Open(grid, from) && (key !in m || score < m[key]) {
      var item := Position(from.x, from.y, dir, score, {});
      assert StateOf(item) == key;
      ToEndBack(grid, end, StateOf(current), current.score, dir);
      forall p | p in queue' ensures ToEnd(grid, end, StateOf(p), p.score) && current.score <= p.score {
        if p != item {
          assert p in queue;
        }
      }
      forall p | p in queue' ensures StateOf(p) in m' && m'[StateOf(p)] <= p.score {
        if p != item {
          assert p in queue;
        }
      }
    }
  }

  lemma StepPending(grid: seq<string>, current: Position, dir: Dir,
                    m: map<State, nat>, queue: seq<Position>, m': map<State, nat>, queue': seq<Position>)
    requires grid != [] && StateOf(current) in m
    requires PendingBut(grid, m, queue, StateOf(current))
    requires current.score == m[StateOf(current)] ==> RelaxedBelow(grid, m, StateOf(current), dir)
    requires current.score != m[StateOf(current)] ==> Relaxed(grid, m, StateOf(current))
    requires Update(grid, current, dir, m, queue, m', queue')
    ensures StateOf(current) in m' && m'[StateOf(current)] == m[StateOf(current)]
    ensures PendingBut(grid, m', queue', StateOf(current))
    ensures current.score == m'[StateOf(current)] ==> RelaxedBelow(grid, m', StateOf(current), dir + 1)
    ensures current.score != m'[StateOf(current)] ==> Relaxed(grid, m', StateOf(current))
  {
    var t := StateOf(current);
    var from := Behind(CellOf(current), dir);
    var key := State(from, dir);
    var score := current.score + 1 + TurnCost(dir, current.direction);
    if Open(grid, from) && (key !in m || score < m[key]) {
      var item := Position(from.x, from.y, dir, score, {});
      assert StateOf(item) == key && key != t;
      forall u | u in m' && u != t
        ensures Relaxed(grid, m', u) || exists p :: p in queue' && StateOf(p) == u && p.score == m'[u]
      {
        if u == key {
          assert item in queue';
        } else if !Relaxed(grid, m, u) {
          var p :| p in queue && StateOf(p) == u && p.score == m[u];
          assert p in queue';
        }
      }
    }
  }

  lemma StepLoose(m0: map<State, nat>, lastPop: nat, popped: nat, current: Position, dir: Dir, grid: seq<string>,
                  m: map<State, nat>, queue: seq<Position>, m': map<State, nat>, queue': seq<Position>)
    requires grid != [] && lastPop <= popped == current.score
    requires forall s :: s in m ==> m[s] <= popped + 1001
    requires Lowered(m0, m) && m0.Keys <= m.Keys
    requires forall s :: s in m0 ==> m0[s] <= lastPop + 1001
    requires m.Keys == m0.Keys ==> Loose(m, popped) <= Loose(m0, lastPop)
    requires m.Keys == m0.Keys && m != m0 ==> exists s :: s in Loose(m0, lastPop) && s !in Loose(m, popped)
    requires Update(grid, current, dir, m, queue, m', queue')
    ensures m'.Keys == m0.Keys ==> Loose(m', popped) <= Loose(m0, lastPop)
    ensures m'.Keys == m0.Keys && m' != m0 ==> exists s :: s in Loose(m0, lastPop) && s !in Loose(m', popped)
  {
    var from := Behind(CellOf(current), dir);
    var key := State(from, dir);
    var score := current.score + 1 + TurnCost(dir, current.direction);
    if Open(grid, from) && (key !in m || score < m[key]) && m'.Keys == m0.Keys {
      assert key in m0 && m0[key] >= m[key] > score;
      assert score == popped + 1;
      assert key in Loose(m0, lastPop) && key !in Loose(m', popped);
    }
  }

  /** The body of the loop over `dir`. */
  method StepBack(grid: seq<string>, current: Position, dir: Dir, m0: map<State, nat>, queue0: seq<Position>)
    returns (m: map<State, nat>, queue: seq<Position>)
    requires grid != []
    ensures Update(grid, current, dir, m0, queue0, m, queue)
  {
    m, queue := m0, queue0;
    var from := Behind(CellOf(current), dir);
    if Open(grid, from) {
      var newScore := current.score + 1 + TurnCost(dir, current.direction);
      var key := State(from, dir);
      if key !in m || newScore < m[key] {
        m := m[key := newScore];
        queue := queue + [Position(from.x, from.y, dir, newScore, {})];
      }
    }
  }

  /** After the last facing, the popped state is relaxed too, or needed no relaxing. */
  lemma RelaxDone(grid: seq<string>, end: Point, current: Position, m: map<State, nat>, queue: seq<Position>)
    requires grid != [] && EndsAtZero(m, end) && Priced(grid, end, m, queue, current.score)
    requires StateOf(current) in m && PendingBut(grid, m, queue, StateOf(current))
    requires current.score == m[StateOf(current)] ==> RelaxedBelow(grid, m, StateOf(current), 4)
    requires current.score != m[StateOf(current)] ==> Relaxed(grid, m, StateOf(current))
    ensures Pricing(grid, end, m, queue, current.score)
  {
    assert Relaxed(grid, m, StateOf(current));
  }

  /** The body of the main loop: take the cheapest item and step back from it in every
      facing, lowering and queueing each entry the step improves. */
  method Relax(grid: seq<string>, end: Point, m0: map<State, nat>, queue0: seq<Position>, lastPop: nat)
    returns (m: map<State, nat>, queue: seq<Position>, popped: nat)
    requires grid != [] && queue0 != [] && Pricing(grid, end, m0, queue0, lastPop)
    ensures Pricing(grid, end, m, queue, popped) && Lowered(m0, m)
    ensures m.Keys <= m0.Keys + Space(grid, end)
    ensures m.Keys == m0.Keys ==> Loose(m, popped) <= Loose(m0, lastPop)
    ensures m.Keys == m0.Keys && m != m0 ==> exists s :: s in Loose(m0, lastPop) && s !in Loose(m, popped)
    ensures m == m0 ==> |queue| < |queue0|
  {
    var k := CheapestIndex(queue0);
    var current := queue0[k];
    ghost var t := StateOf(current);
    var rest := queue0[..k] + queue0[k + 1..];
    RelaxStarts(grid, end, m0, queue0, lastPop, k);
    popped := current.score;
    m, queue := m0, rest;
    for dir := 0 to 4
      invariant Lowered(m0, m) && m.Keys <= m0.Keys + Space(grid, end) && EndsAtZero(m, end)
      invariant Priced(grid, end, m, queue, popped)
      invariant t in m && m[t] == m0[t] && PendingBut(grid, m, queue, t)
      invariant current.score == m[t] ==> RelaxedBelow(grid, m, t, dir)
      invariant current.score != m[t] ==> Relaxed(grid, m, t)
      invariant m.Keys == m0.Keys ==> Loose(m, popped) <= Loose(m0, lastPop)
      invariant m.Keys == m0.Keys && m != m0 ==> exists s :: s in Loose(m0, lastPop) && s !in Loose(m, popped)
      invariant m == m0 ==> queue == rest
    {
      ghost var mBefore, queueBefore := m, queue;
      m, queue := StepBack(grid, current, dir, m, queue);
      StepEntries(grid, end, current, dir, mBefore, queueBefore, m, queue);
      StepQueue(grid, end, current, dir, mBefore, queueBefore, m, queue);
      StepPending(grid, current, dir, mBefore, queueBefore, m, queue);
      StepLoose(m0, lastPop, popped, current, dir, grid, mBefore, queueBefore, m, queue);
    }
    RelaxDone(grid, end, current, m, queue);
  }

  /** Before the facings are tried: the popped item's price and the rest of the queue keep
      every fact the loop needs. */
  lemma RelaxStarts(grid: seq<string>, end: Point, m0: map<State, nat>, queue0: seq<Position>, lastPop: nat, k: nat)
    requires grid != [] && k < |queue0| && Pricing(grid, end, m0, queue0, lastPop)
    requires forall p :: p in queue0 ==> queue0[k].score <= p.score
    ensures var current, rest := queue0[k], queue0[..k] + queue0[k + 1..];
      Priced(grid, end, m0, rest, current.score) && ToEnd(grid, end, StateOf(current), current.score) &&
      StateOf(current) in m0 && PendingBut(grid, m0, rest, StateOf(current)) && lastPop <= current.score &&
      (current.score == m0[StateOf(current)] ==> RelaxedBelow(grid, m0, StateOf(current), 0)) &&
      (current.score != m0[StateOf(current)] ==> Relaxed(grid, m0, StateOf(current)))
  {
    var current, rest, t := queue0[k], queue0[..k] + queue0[k + 1..], StateOf(queue0[k]);
    Removed(queue0, k);
    forall u | u in m0 && u != t
      ensures Relaxed(grid, m0, u) || exists p :: p in rest && StateOf(p) == u && p.score == m0[u]
    {
      if !Relaxed(grid, m0, u) {
        var p :| p in queue0 && StateOf(p) == u && p.score == m0[u];
        assert p in rest;
      }
    }
    if !Relaxed(grid, m0, t) {
      var p :| p in queue0 && StateOf(p) == t && p.score == m0[t];
      assert current.score <= p.score;
    }
  }

  /** A subset is no larger, and a proper one smaller. */
  lemma Fewer<T>(a: set<T>, b: set<T>)
    requires a <= b
    ensures |a| <= |b| && (a != b ==> |a| < |b|)
  {
    assert b == a + (b - a);
    if a != b {
      var x :| x in b - a;
      assert |b - a| >= |{x}|;
    }
  }

  /** One pop of the main loop decreases the measure of `generateOptimalScoreMap`: more
      entries set, or fewer loose ones, or a shorter queue. */
  lemma PopDecreases(space: set<State>, m0: map<State, nat>, m: map<State, nat>, lastPop: nat, popped: nat,
                     queue0: seq<Position>, queue: seq<Position>)
    requires m0.Keys <= space && m.Keys <= m0.Keys + space && Lowered(m0, m)
    requires m.Keys == m0.Keys ==> Loose(m, popped) <= Loose(m0, lastPop)
    requires m.Keys == m0.Keys && m != m0 ==> exists s :: s in Loose(m0, lastPop) && s !in Loose(m, popped)
    requires m == m0 ==> |queue| < |queue0|
    ensures m.Keys <= space
    ensures |space - m.Keys| < |space - m0.Keys| ||
            (|space - m.Keys| == |space - m0.Keys| &&
             (|Loose(m, popped)| < |Loose(m0, lastPop)| ||
              (|Loose(m, popped)| == |Loose(m0, lastPop)| && |queue| < |queue0|)))
  {
    Fewer(space - m.Keys, space - m0.Keys);
    if m.Keys == m0.Keys {
      Fewer(Loose(m, popped), Loose(m0, lastPop));
    }
  }

  /** With every entry relaxed, every priced walk is priced no lower than its entry. */
  lemma {:induction false} PricedBelow(grid: seq<string>, end: Point, m: map<State, nat>, s: State, v: nat)
    requires grid != [] && EndsAtZero(m, end) && (forall t :: t in m ==> Relaxed(grid, m, t))
    requires ToEnd(grid, end, s, v)
    ensures s in m && m[s] <= v
    decreases v
  {
    if s.cell == end && v == 0 {
      assert s == State(end, s.dir);
    } else {
      var f: Dir :| 1 + TurnCost(s.dir, f) <= v &&
        ToEnd(grid, end, State(Ahead(s.cell, s.dir), f), v - 1 - TurnCost(s.dir, f));
      var u := State(Ahead(s.cell, s.dir), f);
      PricedBelow(grid, end, m, u, v - 1 - TurnCost(s.dir, f));
      BehindAhead(s.cell, s.dir);
      assert State(Behind(u.cell, s.dir), s.dir) == s;
    }
  }

  lemma BehindAhead(c: Point, d: Dir)
    ensures Behind(Ahead(c, d), d) == c
  {
  }

  /** `generateOptimalScoreMap`: a price for each cell and facing reached backwards from the
      end (an absent one is `Infinity`). Every facing on the end cell is priced 0, every price
      is the cost of a walk to the end, and no walk to the end is cheaper than its price. */
  method OptimalScoreMap(grid: seq<string>, end: Point) returns (m: map<State, nat>)
    requires grid != []
    ensures EndsAtZero(m, end)
    ensures forall s :: s in m ==> ToEnd(grid, end, s, m[s])
    ensures forall s, v: nat :: ToEnd(grid, end, s, v) ==> s in m && m[s] <= v
  {
    var queue;
    m, queue := SeedEnd(grid, end);
    var lastPop: nat := 0;
    ghost var space := Space(grid, end);
    forall s | s in m ensures s in space {
      InSpace(grid, end, s);
    }
    while queue != []
      invariant Pricing(grid, end, m, queue, lastPop) && m.Keys <= space
      decreases |space - m.Keys|, |Loose(m, lastPop)|, |queue|
    {
      ghost var m0, queue0, lastPop0 := m, queue, lastPop;
      m, queue, lastPop := Relax(grid, end, m, queue, lastPop);
      PopDecreases(space, m0, m, lastPop0, lastPop, queue0, queue);
    }
    forall s, v: nat | ToEnd(grid, end, s, v) ensures s in m && m[s] <= v {
      PricedBelow(grid, end, m, s, v);
    }
  }

  // ---------------------------------------------------------------------------------
  // findAllOptimalPaths

  /** The item the search starts from: the start cell facing East, score 0, its path holding
      the start cell. */
  function StartItem(start: Point): Position {
    Position(start.x, start.y, East, 0, {start})
  }

  /** A walk of items from the start item, each a successor of the one before. */
  ghost predicate Walk(grid: seq<string>, start: Point, c: seq<Position>)
    requires grid != []
  {
    |c| > 0 && c[0] == StartItem(start) && IsChain(grid, c)
  }

  /** A walk whose last item stands on the end cell at exactly the target score. */
  ghost predicate OptimalWalk(grid: seq<string>, start: Point, end: Point, target: int, c: seq<Position>)
    requires grid != []
  {
    Walk(grid, start, c) && CellOf(c[|c| - 1]) == end && c[|c| - 1].score == target
  }

  /** `cell` is on the path of some walk reaching the end at the target score. */
  ghost predicate OnOptimalWalk(grid: seq<string>, start: Point, end: Point, target: int, cell: Point)
    requires grid != []
  {
    exists c: seq<Position> :: OptimalWalk(grid, start, end, target, c) && cell in c[|c| - 1].path
  }

  /** Scores rise strictly along a walk. */
  lemma {:induction false} ChainRises(grid: seq<string>, c: seq<Position>, j: nat)
    requires grid != [] && IsChain(grid, c) && j < |c| - 1
    ensures c[j].score < c[|c| - 1].score
    decreases |c| - j
  {
    SuccessorKinds(grid, c[j], c[j + 1]);
    if j + 1 < |c| - 1 {
      ChainRises(grid, c, j + 1);
    }
  }

  /** A walk grows by any successor of its last item. */
  lemma WalkExtend(grid: seq<string>, start: Point, c: seq<Position>, q: Position)
    requires grid != [] && Walk(grid, start, c) && q in Successors(grid, c[|c| - 1])
    ensures Walk(grid, start, c + [q]) && (c + [q])[|c|] == q
  {
    var c' := c + [q];
    forall k | 0 <= k < |c'| - 1 ensures c'[k + 1] in Successors(grid, c'[k]) {
      if k < |c| - 1 {
        assert c'[k] == c[k] && c'[k + 1] == c[k + 1];
      }
    }
  }

  /** The path an item carries is exactly the cells of the walk that led to it. */
  lemma {:induction false} WalkTiles(grid: seq<string>, start: Point, c: seq<Position>)
    requires grid != [] && Walk(grid, start, c)
    ensures c[|c| - 1].path == set k | 0 <= k < |c| :: CellOf(c[k])
    decreases |c|
  {
    if |c| == 1 {
      assert (set k | 0 <= k < |c| :: CellOf(c[k])) == {start};
    } else {
      var c', q := c[..|c| - 1], c[|c| - 1];
      assert IsChain(grid, c') by {
        forall k | 0 <= k < |c'| - 1 ensures c'[k + 1] in Successors(grid, c'[k]) {
          assert c'[k] == c[k] && c'[k + 1] == c[k + 1];
        }
      }
      WalkTiles(grid, start, c');
      var p := c'[|c'| - 1];
      assert q in Successors(grid, p);
      var before := set k | 0 <= k < |c'| :: CellOf(c'[k]);
      assert (set k | 0 <= k < |c| :: CellOf(c[k])) == before + {CellOf(q)} by {
        forall k | 0 <= k < |c'| ensures CellOf(c[k]) == CellOf(c'[k]) {
        }
      }
      assert CellOf(c'[|c'| - 1]) in before;
      SuccessorPath(grid, p, q);
    }
  }

  /** A successor's path adds its own cell to the path of the item it came from. */
  lemma SuccessorPath(grid: seq<string>, p: Position, q: Position)
    requires grid != [] && q in Successors(grid, p) && CellOf(p) in p.path
    ensures q.path == p.path + {CellOf(q)}
  {
    if q !in Move(p, grid) {
      var r := GetRotations(p);
      assert q == r[0] || q == r[1];
    }
  }

  /** The measure of the search: each queued item weighs four to the power of how far its
      score is below the target. */
  function Pow4(n: nat): (r: nat)
    ensures r >= 1
  {
    if n == 0 then 1 else 4 * Pow4(n - 1)
  }

  lemma {:induction false} Pow4Grows(a: nat, b: nat)
    requires a <= b
    ensures Pow4(a) <= Pow4(b)
    decreases b
  {
    if a < b {
      Pow4Grows(a, b - 1);
    }
  }

  function Slack(p: Position, target: int): nat {
    if target - p.score > 0 then target - p.score else 0
  }

  function Budget(queue: seq<Position>, target: int): nat {
    if queue == [] then 0 else Pow4(Slack(queue[0], target)) + Budget(queue[1..], target)
  }

  lemma {:induction false} BudgetAppend(a: seq<Position>, b: seq<Position>, target: int)
    ensures Budget(a + b, target) == Budget(a, target) + Budget(b, target)
    decreases |a|
  {
    if a != [] {
      assert (a + b)[1..] == a[1..] + b;
      BudgetAppend(a[1..], b, target);
    } else {
      assert a + b == b;
    }
  }

  /** Expanding an item below the target replaces its weight by less: at most three items,
      each at least one closer to the target. */
  lemma PushesWeighLess(grid: seq<string>, x: Position, target: int)
    requires grid != [] && x.score < target
    ensures Budget(Successors(grid, x), target) < Pow4(Slack(x, target))
  {
    var pushes := Successors(grid, x);
    var n: nat := Slack(x, target) - 1;
    var b := Pow4(n);
    assert Pow4(Slack(x, target)) == 4 * b;
    forall q | q in pushes ensures Pow4(Slack(q, target)) <= b {
      SuccessorKinds(grid, x, q);
      Pow4Grows(Slack(q, target), n);
    }
    var p := pushes;
    assert Budget(p, target) == Pow4(Slack(p[0], target)) + Budget(p[1..], target);
    assert Budget(p[1..], target) == Pow4(Slack(p[1], target)) + Budget(p[2..], target) by {
      assert p[1..][1..] == p[2..];
    }
    if |p| == 3 {
      assert Budget(p[2..], target) == Pow4(Slack(p[2], target)) + Budget(p[3..], target) by {
        assert p[2..][1..] == p[3..];
      }
    }
  }

  /** The invariant of the search loop: each queued item ends a walk, every collected tile
      is on a walk to the end at the target score, and every such walk has its path
      collected or an item of it still queued. */
  ghost predicate Collecting(grid: seq<string>, start: Point, end: Point, target: int, queue: seq<Position>, tiles: set<Point>)
    requires grid != []
  {
    (forall p :: p in queue ==> exists c: seq<Position> :: Walk(grid, start, c) && c[|c| - 1] == p) &&
    (forall cell :: cell in tiles ==> OnOptimalWalk(grid, start, end, target, cell)) &&
    (forall c: seq<Position> :: OptimalWalk(grid, start, end, target, c) ==>
       c[|c| - 1].path <= tiles || exists j :: 0 <= j < |c| && c[j] in queue)
  }

  lemma CollectStarts(grid: seq<string>, start: Point, end: Point, target: int)
    requires grid != []
    ensures Collecting(grid, start, end, target, [StartItem(start)], {})
  {
    assert Walk(grid, start, [StartItem(start)]);
    forall c: seq<Position> | OptimalWalk(grid, start, end, target, c)
      ensures exists j :: 0 <= j < |c| && c[j] in [StartItem(start)]
    {
      assert c[0] in [StartItem(start)];
    }
  }

  /** The item on the end cell at the target score: its path is collected. */
  lemma CollectAtEnd(grid: seq<string>, start: Point, end: Point, target: int, queue: seq<Position>, tiles: set<Point>)
    requires grid != [] && queue != [] && Collecting(grid, start, end, target, queue, tiles)
    requires CellOf(queue[0]) == end && queue[0].score == target
    ensures Collecting(grid, start, end, target, queue[1..], tiles + queue[0].path)
  {
    var x, rest := queue[0], queue[1..];
    assert queue == [x] + rest;
    assert forall p :: p in rest ==> p in queue;
    assert x in queue;
    var c0: seq<Position> :| Walk(grid, start, c0) && c0[|c0| - 1] == x;
    assert OptimalWalk(grid, start, end, target, c0);
    forall c: seq<Position> | OptimalWalk(grid, start, end, target, c) && !(c[|c| - 1].path <= tiles + x.path)
      ensures exists j :: 0 <= j < |c| && c[j] in rest
    {
      var j :| 0 <= j < |c| && c[j] in queue;
      if j < |c| - 1 {
        ChainRises(grid, c, j);
      }
      assert c[j] != x;
    }
  }

  /** An item at or above the target, not one to collect: it is dropped. */
  lemma CollectSkipped(grid: seq<string>, start: Point, end: Point, target: int, queue: seq<Position>, tiles: set<Point>)
    requires grid != [] && queue != [] && Collecting(grid, start, end, target, queue, tiles)
    requires !(CellOf(queue[0]) == end && queue[0].score == target) && queue[0].score >= target
    ensures Collecting(grid, start, end, target, queue[1..], tiles)
  {
    var x, rest := queue[0], queue[1..];
    assert queue == [x] + rest;
    assert forall p :: p in rest ==> p in queue;
    forall c: seq<Position> | OptimalWalk(grid, start, end, target, c) && !(c[|c| - 1].path <= tiles)
      ensures exists j :: 0 <= j < |c| && c[j] in rest
    {
      var j :| 0 <= j < |c| && c[j] in queue;
      if j < |c| - 1 {
        ChainRises(grid, c, j);
      }
      assert c[j] != x;
    }
  }

  /** An item below the target: its successors are queued. */
  lemma CollectExpands(grid: seq<string>, start: Point, end: Point, target: int, queue: seq<Position>, tiles: set<Point>)
    requires grid != [] && queue != [] && Collecting(grid, start, end, target, queue, tiles)
    requires !(CellOf(queue[0]) == end && queue[0].score == target) && queue[0].score < target
    ensures Collecting(grid, start, end, target, queue[1..] + Successors(grid, queue[0]), tiles)
  {
    var x, rest := queue[0], queue[1..];
    var queue' := rest + Successors(grid, x);
    assert queue == [x] + rest;
    forall p | p in queue' ensures exists c: seq<Position> :: Walk(grid, start, c) && c[|c| - 1] == p {
      if p in rest {
        assert p in queue;
      } else {
        assert x in queue;
        var c: seq<Position> :| Walk(grid, start, c) && c[|c| - 1] == x;
        WalkExtend(grid, start, c, p);
        var c' := c + [p];
        assert Walk(grid, start, c') && c'[|c'| - 1] == p;
      }
    }
    forall c: seq<Position> | OptimalWalk(grid, start, end, target, c) && !(c[|c| - 1].path <= tiles)
      ensures exists j :: 0 <= j < |c| && c[j] in queue'
    {
      var j :| 0 <= j < |c| && c[j] in queue;
      if c[j] != x {
        assert c[j] in queue';
      } else {
        assert j < |c| - 1;
        assert c[j + 1] in queue';
      }
    }
  }

  /** One turn of the search loop of `findAllOptimalPaths`: the first item is collected when
      it stands on the end cell at the target score, dropped when its score is at or above
      the target, and expanded otherwise. */
  method Collect(grid: seq<string>, start: Point, end: Point, targetScore: int, queue: seq<Position>, tiles: set<Point>)
    returns (queue': seq<Position>, tiles': set<Point>)
    requires grid != [] && queue != [] && Collecting(grid, start, end, targetScore, queue, tiles)
    ensures Collecting(grid, start, end, targetScore, queue', tiles')
    ensures Budget(queue', targetScore) < Budget(queue, targetScore)
  {
    var current := queue[0];
    assert Budget(queue, targetScore) == Pow4(Slack(current, targetScore)) + Budget(queue[1..], targetScore);
    if current.x == end.x && current.y == end.y && current.score == targetScore {
      CollectAtEnd(grid, start, end, targetScore, queue, tiles);
      queue', tiles' := queue[1..], tiles + current.path;
      return;
    }
    tiles' := tiles;
    if current.score >= targetScore {
      CollectSkipped(grid, start, end, targetScore, queue, tiles);
      queue' := queue[1..];
      return;
    }
    CollectExpands(grid, start, end, targetScore, queue, tiles);
    PushesWeighLess(grid, current, targetScore);
    BudgetAppend(queue[1..], Successors(grid, current), targetScore);
    var movePositions := Move(current, grid);
    queue' := queue[1..] + movePositions;
    var rotations := GetRotations(current);
    queue' := queue' + rotations;
    assert queue' == queue[1..] + Successors(grid, current);
  }

  /** `findAllOptimalPaths` without its clock-driven pruning: every tile on a walk from the
      start, facing East, that stands on the end cell at exactly `targetScore`. */
  method FindAllOptimalPaths(grid: seq<string>, start: Point, end: Point, targetScore: int) returns (tiles: set<Point>)
    requires grid != []
    ensures forall cell :: cell in tiles <==> OnOptimalWalk(grid, start, end, targetScore, cell)
  {
    var optimalScoreMap := OptimalScoreMap(grid, end);
    var queue := [StartItem(start)];
    tiles := {};
    CollectStarts(grid, start, end, targetScore);
    while queue != []
      invariant Collecting(grid, start, end, targetScore, queue, tiles)
      decreases Budget(queue, targetScore)
    {
      queue, tiles := Collect(grid, start, end, targetScore, queue, tiles);
    }
    CollectDone(grid, start, end, targetScore, tiles);
  }

  /** With the queue empty, the tiles are exactly those on walks to the end at the target. */
  lemma CollectDone(grid: seq<string>, start: Point, end: Point, target: int, tiles: set<Point>)
    requires grid != [] && Collecting(grid, start, end, target, [], tiles)
    ensures forall cell :: cell in tiles <==> OnOptimalWalk(grid, start, end, target, cell)
  {
    forall cell | OnOptimalWalk(grid, start, end, target, cell) ensures cell in tiles {
      var c: seq<Position> :| OptimalWalk(grid, start, end, target, c) && cell in c[|c| - 1].path;
    }
  }

  // ---------------------------------------------------------------------------------
  // solve_pt2

  /** Every state `solve` reaches at a score is the last of a walk from the start item at
      that score. */
  lemma {:induction false} ReachWalk(grid: seq<string>, start: Point, end: Point, t: State, c: nat)
    returns (w: seq<Position>)
    requires grid != [] && Reach(grid, State(start, East), end, t, c)
    ensures Walk(grid, start, w) && StateOf(w[|w| - 1]) == t && w[|w| - 1].score == c
    decreases c
  {
    var init := State(start, East);
    if i :| 0 <= i < 3 && Weight(i) <= c && Allowed(grid, Prev(t, i), i) &&
            Prev(t, i).cell != end && Reach(grid, init, end, Prev(t, i), c - Weight(i)) {
      var v := ReachWalk(grid, start, end, Prev(t, i), c - Weight(i));
      var x := v[|v| - 1];
      NextPrev(t, i);
      var q := StepSuccessor(grid, x, i);
      WalkExtend(grid, start, v, q);
      w := v + [q];
    } else {
      w := [StartItem(start)];
      assert StateOf(StartItem(start)) == init;
    }
  }

  /** `solve_pt2`: the number of tiles on the cheapest walks from `S` to `E`. When `E` is
      reachable, both `S` and `E` are among them. */
  method SolvePt2(input: string) returns (count: nat, ghost tiles: set<Point>, ghost minScore: int,
                                          ghost start: Point, ghost end: Point)
    ensures LastSeen(Rows(input), 'S', start, |Rows(input)|, 0)
    ensures LastSeen(Rows(input), 'E', end, |Rows(input)|, 0)
    ensures Cheapest(Rows(input), State(start, East), end, minScore)
    ensures forall cell :: cell in tiles <==> OnOptimalWalk(Rows(input), start, end, minScore, cell)
    ensures count == |tiles|
    ensures minScore < MaxSafeInteger ==> start in tiles && end in tiles
  {
    var grid := Rows(input);
    var s, e := FindStartEnd(grid);
    start, end := s, e;
    var best;
    ghost var s', e';
    best, s', e' := Solve(input);
    LastSeenUnique(grid, 'S', s, s', |grid|, 0);
    LastSeenUnique(grid, 'E', e, e', |grid|, 0);
    minScore := best;
    var allTiles := FindAllOptimalPaths(grid, s, e, best);
    tiles := allTiles;
    count := |allTiles|;
    if best < MaxSafeInteger {
      ghost var d: Dir :| Reach(grid, State(s, East), e, State(e, d), best);
      ghost var w := ReachWalk(grid, s, e, State(e, d), best);
      WalkTiles(grid, s, w);
      assert CellOf(w[0]) == s && CellOf(w[|w| - 1]) == e;
      assert OptimalWalk(grid, s, e, best, w);
    }
  }
}
