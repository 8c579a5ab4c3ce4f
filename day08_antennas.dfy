/** Day 8 of 2024 (node_runner/src/solved/index.day8.ts): every character of the map other
    than `.` and space is an antenna of that frequency. For each pair of antennas of one
    frequency, the points on their line at whole multiples of their distance, 100 steps
    out from each antenna, are antinodes; the answer is the number of distinct antinodes
    inside the map. The text keys `"x,y"` of the source's set are modelled by the
    positions themselves. */
module Day08Antennas {
  import opened JsText

  datatype Position = Position(x: int, y: int)
  datatype Antenna = Antenna(position: Position, frequency: char)

  /** `isWithinBounds`. */
  predicate IsWithinBounds(pos: Position, maxX: int, maxY: int) {
    0 <= pos.x < maxX && 0 <= pos.y < maxY
  }

  // ---------------------------------------------------------------- one pair

  /** The list `findAntinodePosition` returns: nothing for two frequencies or one place;
      otherwise 100 points stepping back from the first antenna, then 100 stepping on
      from the second. */
  function Antinodes(a1: Antenna, a2: Antenna): (r: seq<Position>)
    ensures |r| == 0 <==> a1.frequency != a2.frequency || a1.position == a2.position
    ensures |r| == 0 || |r| == 200
  {
    var dx := a2.position.x - a1.position.x;
    var dy := a2.position.y - a1.position.y;
    if a1.frequency != a2.frequency || (dx == 0 && dy == 0) then []
    else Steps(a1.position, -dx, -dy, 100) + Steps(a2.position, dx, dy, 100)
  }

  /** The first `n` points from `p` by steps of `(dx, dy)`, starting with `p` itself. */
  function Steps(p: Position, dx: int, dy: int, n: nat): (r: seq<Position>)
    ensures |r| == n
  {
    if n == 0 then [] else Steps(p, dx, dy, n - 1) + [Position(p.x + dx * (n - 1), p.y + dy * (n - 1))]
  }

  lemma {:induction false} StepAt(p: Position, dx: int, dy: int, n: nat, k: nat)
    requires k < n
    ensures Steps(p, dx, dy, n)[k] == Position(p.x + dx * k, p.y + dy * k)
  {
    if k < n - 1 {
      StepAt(p, dx, dy, n - 1, k);
    }
  }

  /** The point `t` whole steps from `p` towards `q`. */
  function Along(p: Position, q: Position, t: int): Position {
    Position(p.x + (q.x - p.x) * t, p.y + (q.y - p.y) * t)
  }

  lemma Distribute(d: int, m: int)
    ensures d * m + d == d * (m + 1)
  {
  }

  /** The `k`-th antinode is `-k` steps from the first antenna for the first 100, and
      `k - 99` steps for the rest. */
  lemma AntinodeAt(a1: Antenna, a2: Antenna, k: int)
    requires a1.frequency == a2.frequency && a1.position != a2.position && 0 <= k < 200
    ensures Antinodes(a1, a2)[k] == Along(a1.position, a2.position, if k < 100 then -k else k - 99)
  {
    if k < 100 {
      BackAt(a1.position, a2.position, k);
    } else {
      ForwardAt(a1.position, a2.position, k - 100);
    }
  }

  lemma BackAt(p: Position, q: Position, k: nat)
    requires k < 100
    ensures Steps(p, -(q.x - p.x), -(q.y - p.y), 100)[k] == Along(p, q, -(k as int))
  {
    var dx, dy := q.x - p.x, q.y - p.y;
    StepAt(p, -dx, -dy, 100, k);
    NegMul(dx, k);
    NegMul(dy, k);
  }

  lemma NegMul(d: int, k: int)
    ensures (-d) * k == d * (-k) == -(d * k)
  {
  }

  lemma ForwardAt(p: Position, q: Position, k: nat)
    requires k < 100
    ensures Steps(q, q.x - p.x, q.y - p.y, 100)[k] == Along(p, q, k + 1)
  {
    var dx, dy := q.x - p.x, q.y - p.y;
    StepAt(q, dx, dy, 100, k);
    Distribute(dx, k);
    Distribute(dy, k);
  }

  /** The antinodes of a pair are exactly the points of their line from 99 steps before
      the first antenna to 100 steps after it (99 after the second); both antennas are
      among them. */
  lemma AntinodesOnLine(a1: Antenna, a2: Antenna, q: Position)
    requires a1.frequency == a2.frequency && a1.position != a2.position
    ensures q in Antinodes(a1, a2) <==> exists t :: -99 <= t <= 100 && q == Along(a1.position, a2.position, t)
    ensures a1.position in Antinodes(a1, a2) && a2.position in Antinodes(a1, a2)
  {
    var r := Antinodes(a1, a2);
    if q in r {
      var k :| 0 <= k < 200 && r[k] == q;
      AntinodeAt(a1, a2, k);
    }
    if exists t :: -99 <= t <= 100 && q == Along(a1.position, a2.position, t) {
      var t :| -99 <= t <= 100 && q == Along(a1.position, a2.position, t);
      var k := if t <= 0 then -t else t + 99;
      AntinodeAt(a1, a2, k);
      assert r[k] == q;
    }
    AntinodeAt(a1, a2, 0);
    AntinodeAt(a1, a2, 100);
  }

  /** Walking from the other antenna reaches the same point with `1 - t` steps. */
  lemma AlongReversed(p: Position, q: Position, t: int)
    ensures Along(p, q, t) == Along(q, p, 1 - t)
  {
    var dx, dy := q.x - p.x, q.y - p.y;
    assert (p.x - q.x) * (1 - t) == -dx + dx * t;
    assert (p.y - q.y) * (1 - t) == -dy + dy * t;
  }

  /** Swapping the two antennas gives the same points: the line is walked from the other
      end over the same range. */
  lemma AntinodesSymmetric(a1: Antenna, a2: Antenna, q: Position)
    ensures q in Antinodes(a1, a2) <==> q in Antinodes(a2, a1)
  {
    if a1.frequency == a2.frequency && a1.position != a2.position {
      AntinodesOnLine(a1, a2, q);
      AntinodesOnLine(a2, a1, q);
      if q in Antinodes(a1, a2) {
        var t :| -99 <= t <= 100 && q == Along(a1.position, a2.position, t);
        AlongReversed(a1.position, a2.position, t);
      }
      if q in Antinodes(a2, a1) {
        var t :| -99 <= t <= 100 && q == Along(a2.position, a1.position, t);
        AlongReversed(a2.position, a1.position, t);
      }
    }
  }

  /** `findAntinodePosition`: two loops of 100 steps each. */
  method FindAntinodePosition(a1: Antenna, a2: Antenna) returns (result: seq<Position>)
    ensures result == Antinodes(a1, a2)
  {
    if a1.frequency != a2.frequency {
      return [];
    }
    var dx := a2.position.x - a1.position.x;
    var dy := a2.position.y - a1.position.y;
    if dx == 0 && dy == 0 {
      return [];
    }
    result := [];
    for i := 0 to 100
      invariant result == Steps(a1.position, -dx, -dy, i)
    {
      NegMul(dx, i);
      NegMul(dy, i);
      result := result + [Position(a1.position.x - dx * i, a1.position.y - dy * i)];
    }
    ghost var back := result;
    for i := 0 to 100
      invariant result == back + Steps(a2.position, dx, dy, i)
    {
      result := result + [Position(a2.position.x + dx * i, a2.position.y + dy * i)];
    }
  }

  // ---------------------------------------------------------------- parsing

  /** Every character other than `.` and space marks an antenna. */
  predicate IsAntenna(c: char) {
    c != '.' && c != ' '
  }

  /** The antennas of one line, left to right. */
  function RowAntennas(line: string, y: int): (r: seq<Antenna>)
    ensures forall a :: a in r ==>
      a.position.y == y && 0 <= a.position.x < |line| && line[a.position.x] == a.frequency && IsAntenna(a.frequency)
  {
    if line == [] then []
    else
      var x := |line| - 1;
      RowAntennas(line[..x], y) + (if IsAntenna(line[x]) then [Antenna(Position(x, y), line[x])] else [])
  }

  /** The antennas of the map, row by row. */
  function AntennasOf(lines: seq<string>): seq<Antenna> {
    if lines == [] then []
    else AntennasOf(lines[..|lines| - 1]) + RowAntennas(lines[|lines| - 1], |lines| - 1)
  }

  lemma {:induction false} RowMeaning(line: string, y: int, a: Antenna)
    ensures a in RowAntennas(line, y) <==>
      a.position.y == y && 0 <= a.position.x < |line| && line[a.position.x] == a.frequency && IsAntenna(a.frequency)
  {
    if line != [] {
      var x := |line| - 1;
      RowMeaning(line[..x], y, a);
      if a.position.y == y && 0 <= a.position.x < x {
        assert line[..x][a.position.x] == line[a.position.x];
      }
    }
  }

  /** The antennas are exactly the non-blank cells of the map, each with its character
      as frequency. */
  lemma {:induction false} AntennaMeaning(lines: seq<string>, a: Antenna)
    ensures a in AntennasOf(lines) <==>
      0 <= a.position.y < |lines| && 0 <= a.position.x < |lines[a.position.y]|
      && lines[a.position.y][a.position.x] == a.frequency && IsAntenna(a.frequency)
  {
    if lines != [] {
      var n := |lines| - 1;
      AntennaMeaning(lines[..n], a);
      RowMeaning(lines[n], n, a);
      if 0 <= a.position.y < n {
        assert lines[..n][a.position.y] == lines[a.position.y];
      }
    }
  }

  /** The parsing loops of `solve_pt1`: rows top to bottom, cells left to right. */
  method ParseAntennas(lines: seq<string>) returns (antennas: seq<Antenna>)
    ensures antennas == AntennasOf(lines)
  {
    antennas := [];
    for y := 0 to |lines|
      invariant antennas == AntennasOf(lines[..y])
    {
      antennas := ScanLine(antennas, lines[y], y);
      assert lines[..y + 1][..y] == lines[..y];
    }
    assert lines[..|lines|] == lines;
  }

  /** The inner parsing loop over the cells of row `y`. */
  method ScanLine(antennas: seq<Antenna>, line: string, y: int) returns (r: seq<Antenna>)
    ensures r == antennas + RowAntennas(line, y)
  {
    r := antennas;
    for x := 0 to |line|
      invariant r == antennas + RowAntennas(line[..x], y)
    {
      assert line[..x + 1][..x] == line[..x];
      if line[x] != '.' && line[x] != ' ' {
        r := r + [Antenna(Position(x, y), line[x])];
      }
    }
    assert line[..|line|] == line;
  }

  // ---------------------------------------------------------------- frequency groups

  /** The antennas of one frequency, in order. */
  function Filter(antennas: seq<Antenna>, f: char): seq<Antenna> {
    if antennas == [] then []
    else
      var n := |antennas| - 1;
      Filter(antennas[..n], f) + (if antennas[n].frequency == f then [antennas[n]] else [])
  }

  /** A frequency's list holds exactly the antennas of that frequency. */
  lemma {:induction false} FilterMembers(antennas: seq<Antenna>, f: char, a: Antenna)
    ensures a in Filter(antennas, f) <==> a in antennas && a.frequency == f
  {
    if antennas != [] {
      var n := |antennas| - 1;
      FilterMembers(antennas[..n], f, a);
      assert antennas == antennas[..n] + [antennas[n]];
    }
  }

  /** The frequencies present. */
  function Frequencies(antennas: seq<Antenna>): set<char> {
    set a | a in antennas :: a.frequency
  }

  /** What the grouping loop builds: the map's keys in insertion order, each frequency
      once, and each frequency's antennas in order. */
  predicate Grouped(antennas: seq<Antenna>, order: seq<char>, groups: map<char, seq<Antenna>>) {
    (forall f :: f in groups <==> f in order)
    && (forall f :: f in order <==> f in Frequencies(antennas))
    && (forall i, j :: 0 <= i < j < |order| ==> order[i] != order[j])
    && (forall f :: f in groups ==> groups[f] == Filter(antennas, f))
  }

  lemma FilterAppend(antennas: seq<Antenna>, x: Antenna, f: char)
    ensures Filter(antennas + [x], f) == Filter(antennas, f) + (if x.frequency == f then [x] else [])
  {
    assert (antennas + [x])[..|antennas|] == antennas;
  }

  lemma FrequenciesAppend(antennas: seq<Antenna>, x: Antenna)
    ensures Frequencies(antennas + [x]) == Frequencies(antennas) + {x.frequency}
  {
    assert x in antennas + [x];
  }

  /** One more antenna keeps the grouping: a new frequency is added last with an empty
      list, and the antenna goes at the end of its frequency's list. */
  lemma GroupStep(prefix: seq<Antenna>, a: Antenna, order: seq<char>, groups: map<char, seq<Antenna>>)
    requires Grouped(prefix, order, groups)
    ensures var order' := if a.frequency in groups then order else order + [a.frequency];
            var groups' := if a.frequency in groups then groups else groups[a.frequency := []];
            Grouped(prefix + [a], order', groups'[a.frequency := groups'[a.frequency] + [a]])
  {
    FrequenciesAppend(prefix, a);
    forall f ensures Filter(prefix + [a], f) == Filter(prefix, f) + (if a.frequency == f then [a] else []) {
      FilterAppend(prefix, a, f);
    }
    if a.frequency !in groups {
      FilterEmpty(prefix, a.frequency);
    }
  }

  lemma {:induction false} FilterEmpty(antennas: seq<Antenna>, f: char)
    requires f !in Frequencies(antennas)
    ensures Filter(antennas, f) == []
  {
    if antennas != [] {
      var n := |antennas| - 1;
      assert antennas[n] in antennas;
      assert forall a :: a in antennas[..n] ==> a in antennas;
      FilterEmpty(antennas[..n], f);
    }
  }

  lemma PrefixStep(antennas: seq<Antenna>, k: nat)
    requires k < |antennas|
    ensures antennas[..k + 1] == antennas[..k] + [antennas[k]]
  {
  }

  /** The `frequencyGroups` loop: a new frequency gets an empty list, then the antenna is
      appended to its frequency's list. */
  method GroupByFrequency(antennas: seq<Antenna>) returns (order: seq<char>, groups: map<char, seq<Antenna>>)
    ensures Grouped(antennas, order, groups)
  {
    order, groups := [], map[];
    for k := 0 to |antennas|
      invariant Grouped(antennas[..k], order, groups)
    {
      var antenna := antennas[k];
      GroupStep(antennas[..k], antenna, order, groups);
      PrefixStep(antennas, k);
      if antenna.frequency !in groups {
        groups := groups[antenna.frequency := []];
        order := order + [antenna.frequency];
      }
      groups := groups[antenna.frequency := groups[antenna.frequency] + [antenna]];
    }
    assert antennas[..|antennas|] == antennas;
  }

  // ---------------------------------------------------------------- collecting antinodes

  /** The antinodes of one pair that lie inside the map. */
  function PairPoints(a1: Antenna, a2: Antenna, w: int, h: int): set<Position> {
    set q | q in Antinodes(a1, a2) && IsWithinBounds(q, w, h)
  }

  /** The in-map antinodes of all pairs `i < j` of a list of antennas. */
  function PairSet(s: seq<Antenna>, w: int, h: int): set<Position> {
    set i, j, q | 0 <= i < j < |s| && q in PairPoints(s[i], s[j], w, h) :: q
  }

  lemma PairSetMember(s: seq<Antenna>, i: int, j: int, w: int, h: int, q: Position)
    requires 0 <= i < j < |s| && q in PairPoints(s[i], s[j], w, h)
    ensures q in PairSet(s, w, h)
  {
  }

  /** The pairs whose first antenna comes before `s[i]`. */
  function Before(s: seq<Antenna>, i: int, w: int, h: int): set<Position> {
    set i', j, q | 0 <= i' < i && i' < j < |s| && q in PairPoints(s[i'], s[j], w, h) :: q
  }

  /** The pairs `(i, j')` with `j'` before `j`. */
  function Row(s: seq<Antenna>, i: int, j: int, w: int, h: int): set<Position>
    requires 0 <= i < |s|
  {
    set j', q | i < j' < j && j' < |s| && q in PairPoints(s[i], s[j'], w, h) :: q
  }

  /** The inner `for...of` loop: each in-map antinode of the pair is added. */
  method AddPairAntinodes(antinodes: set<Position>, potential: seq<Position>, w: int, h: int)
    returns (r: set<Position>)
    ensures r == antinodes + (set q | q in potential && IsWithinBounds(q, w, h))
  {
    r := antinodes;
    for k := 0 to |potential|
      invariant r == antinodes + (set q | q in potential[..k] && IsWithinBounds(q, w, h))
    {
      assert potential[..k + 1] == potential[..k] + [potential[k]];
      if IsWithinBounds(potential[k], w, h) {
        r := r + {potential[k]};
      }
    }
    assert potential[..|potential|] == potential;
  }

  lemma RowStep(s: seq<Antenna>, i: int, j: int, w: int, h: int)
    requires 0 <= i < j < |s|
    ensures Row(s, i, j + 1, w, h) == Row(s, i, j, w, h) + PairPoints(s[i], s[j], w, h)
  {
  }

  lemma BeforeStep(s: seq<Antenna>, i: int, w: int, h: int)
    requires 0 <= i < |s|
    ensures Before(s, i + 1, w, h) == Before(s, i, w, h) + Row(s, i, |s|, w, h)
  {
    forall q | q in Before(s, i + 1, w, h) ensures q in Before(s, i, w, h) + Row(s, i, |s|, w, h) {
      var i', j :| 0 <= i' < i + 1 && i' < j < |s| && q in PairPoints(s[i'], s[j], w, h);
      if i' == i {
        assert q in Row(s, i, |s|, w, h);
      }
    }
  }

  /** The inner pair loop: `group[i]` with each later antenna of the group. */
  method AddRowAntinodes(antinodes: set<Position>, group: seq<Antenna>, i: int, w: int, h: int)
    returns (r: set<Position>)
    requires 0 <= i < |group|
    ensures r == antinodes + Row(group, i, |group|, w, h)
  {
    r := antinodes;
    assert Row(group, i, i + 1, w, h) == {};
    for j := i + 1 to |group|
      invariant r == antinodes + Row(group, i, j, w, h)
    {
      var potentialAntinodes := FindAntinodePosition(group[i], group[j]);
      r := AddPairAntinodes(r, potentialAntinodes, w, h);
      RowStep(group, i, j, w, h);
    }
  }

  /** The pair loops over one frequency group, `i < j`. */
  method AddGroupAntinodes(antinodes: set<Position>, group: seq<Antenna>, w: int, h: int)
    returns (r: set<Position>)
    ensures r == antinodes + PairSet(group, w, h)
  {
    r := antinodes;
    for i := 0 to |group|
      invariant r == antinodes + Before(group, i, w, h)
    {
      r := AddRowAntinodes(r, group, i, w, h);
      BeforeStep(group, i, w, h);
    }
    assert Before(group, |group|, w, h) == PairSet(group, w, h);
  }

  /** The group of frequency `f`; every frequency of `order` has one. */
  function GroupOf(groups: map<char, seq<Antenna>>, f: char): seq<Antenna> {
    if f in groups then groups[f] else []
  }

  /** The antinodes of the groups of the frequencies `order`, together. */
  function FreqPoints(order: seq<char>, groups: map<char, seq<Antenna>>, w: int, h: int): set<Position> {
    if order == [] then {}
    else
      var n := |order| - 1;
      FreqPoints(order[..n], groups, w, h) + PairSet(GroupOf(groups, order[n]), w, h)
  }

  /** The loop over `frequencyGroups`, in insertion order. */
  method CollectAntinodes(order: seq<char>, groups: map<char, seq<Antenna>>, w: int, h: int)
    returns (antinodes: set<Position>)
    requires forall f :: f in order ==> f in groups
    ensures antinodes == FreqPoints(order, groups, w, h)
  {
    antinodes := {};
    for k := 0 to |order|
      invariant antinodes == FreqPoints(order[..k], groups, w, h)
    {
      assert order[..k + 1][..k] == order[..k];
      assert GroupOf(groups, order[k]) == groups[order[k]];
      antinodes := AddGroupAntinodes(antinodes, groups[order[k]], w, h);
    }
    assert order[..|order|] == order;
  }

  // ---------------------------------------------------------------- the grouping is invisible

  /** Some pair `i < j` of `s` is related by `rel`. */
  predicate PairBy(s: seq<Antenna>, rel: (Antenna, Antenna) -> bool) {
    exists i, j :: 0 <= i < j < |s| && rel(s[i], s[j])
  }

  /** Some pair `a < b` of antennas of frequency `f` is related by `rel`. */
  predicate SamePairBy(antennas: seq<Antenna>, f: char, rel: (Antenna, Antenna) -> bool) {
    exists a, b :: 0 <= a < b < |antennas| && antennas[a].frequency == f && antennas[b].frequency == f
      && rel(antennas[a], antennas[b])
  }

  /** Pairs within a frequency's group are the pairs of that frequency in the whole
      list, whatever is asked of the pair. */
  lemma FilterPairs(antennas: seq<Antenna>, f: char, rel: (Antenna, Antenna) -> bool)
    ensures PairBy(Filter(antennas, f), rel) <==> SamePairBy(antennas, f, rel)
  {
    if PairBy(Filter(antennas, f), rel) {
      FilterPairsOut(antennas, f, rel);
    }
    if SamePairBy(antennas, f, rel) {
      FilterPairsIn(antennas, f, rel);
    }
  }

  lemma {:induction false} FilterPairsOut(antennas: seq<Antenna>, f: char, rel: (Antenna, Antenna) -> bool)
    requires PairBy(Filter(antennas, f), rel)
    ensures SamePairBy(antennas, f, rel)
  {
    var n := |antennas| - 1;
    var init, x := antennas[..n], antennas[n];
    var g, g' := Filter(antennas, f), Filter(init, f);
    assert g == g' + (if x.frequency == f then [x] else []);
    var i, j :| 0 <= i < j < |g| && rel(g[i], g[j]);
    if j < |g'| {
      assert g[i] == g'[i] && g[j] == g'[j];
      FilterPairsOut(init, f, rel);
      var a, b :| 0 <= a < b < |init| && init[a].frequency == f && init[b].frequency == f && rel(init[a], init[b]);
      assert antennas[a] == init[a] && antennas[b] == init[b];
    } else {
      assert g[i] == g'[i] && g'[i] in g';
      FilterMembers(init, f, g[i]);
      var a :| 0 <= a < |init| && init[a] == g[i];
      assert antennas[a] == g[i] && antennas[n] == g[j];
    }
  }

  lemma {:induction false} FilterPairsIn(antennas: seq<Antenna>, f: char, rel: (Antenna, Antenna) -> bool)
    requires SamePairBy(antennas, f, rel)
    ensures PairBy(Filter(antennas, f), rel)
  {
    var n := |antennas| - 1;
    var init, x := antennas[..n], antennas[n];
    var g, g' := Filter(antennas, f), Filter(init, f);
    assert g == g' + (if x.frequency == f then [x] else []);
    var a, b :| 0 <= a < b < |antennas| && antennas[a].frequency == f && antennas[b].frequency == f
      && rel(antennas[a], antennas[b]);
    if b < n {
      assert init[a] == antennas[a] && init[b] == antennas[b];
      FilterPairsIn(init, f, rel);
      var i, j :| 0 <= i < j < |g'| && rel(g'[i], g'[j]);
      assert g[i] == g'[i] && g[j] == g'[j];
    } else {
      assert antennas[a] == init[a] && init[a] in init;
      FilterMembers(init, f, init[a]);
      var i :| 0 <= i < |g'| && g'[i] == antennas[a];
      assert g[i] == antennas[a] && g[|g'|] == x;
    }
  }

  lemma FreqPointsMeaning(order: seq<char>, groups: map<char, seq<Antenna>>, w: int, h: int, q: Position)
    ensures q in FreqPoints(order, groups, w, h) <==> exists f :: f in order && q in PairSet(GroupOf(groups, f), w, h)
  {
    if q in FreqPoints(order, groups, w, h) {
      FreqPointsOut(order, groups, w, h, q);
    }
    if exists f :: f in order && q in PairSet(GroupOf(groups, f), w, h) {
      var f :| f in order && q in PairSet(GroupOf(groups, f), w, h);
      var i :| 0 <= i < |order| && order[i] == f;
      FreqPointsIn(order, groups, w, h, q, i);
    }
  }

  lemma {:induction false} FreqPointsOut(order: seq<char>, groups: map<char, seq<Antenna>>, w: int, h: int, q: Position)
    requires q in FreqPoints(order, groups, w, h)
    ensures exists f :: f in order && q in PairSet(GroupOf(groups, f), w, h)
  {
    var n := |order| - 1;
    var init := order[..n];
    if q in FreqPoints(init, groups, w, h) {
      FreqPointsOut(init, groups, w, h, q);
      var f :| f in init && q in PairSet(GroupOf(groups, f), w, h);
      var i :| 0 <= i < n && init[i] == f;
      assert order[i] == f;
    } else {
      assert order[n] in order;
    }
  }

  lemma {:induction false} FreqPointsIn(order: seq<char>, groups: map<char, seq<Antenna>>, w: int, h: int, q: Position, i: nat)
    requires i < |order| && q in PairSet(GroupOf(groups, order[i]), w, h)
    ensures q in FreqPoints(order, groups, w, h)
  {
    var n := |order| - 1;
    if i < n {
      var init := order[..n];
      assert init[i] == order[i];
      FreqPointsIn(init, groups, w, h, q, i);
    }
  }

  /** Going group by group gives the antinodes of all pairs `a < b` of one frequency in
      the whole list. */
  lemma GroupsCover(antennas: seq<Antenna>, order: seq<char>, groups: map<char, seq<Antenna>>, w: int, h: int)
    requires Grouped(antennas, order, groups)
    ensures FreqPoints(order, groups, w, h) == PairSet(antennas, w, h)
  {
    forall q ensures q in FreqPoints(order, groups, w, h) <==> q in PairSet(antennas, w, h) {
      FreqPointsMeaning(order, groups, w, h, q);
      if q in PairSet(antennas, w, h) {
        CoverIn(antennas, order, groups, w, h, q);
      }
      if q in FreqPoints(order, groups, w, h) {
        var f :| f in order && q in PairSet(GroupOf(groups, f), w, h);
        CoverOut(antennas, order, groups, w, h, q, f);
      }
    }
  }

  lemma CoverIn(antennas: seq<Antenna>, order: seq<char>, groups: map<char, seq<Antenna>>, w: int, h: int, q: Position)
    requires Grouped(antennas, order, groups) && q in PairSet(antennas, w, h)
    ensures exists f :: f in order && q in PairSet(GroupOf(groups, f), w, h)
  {
    var rel := (x: Antenna, y: Antenna) => q in PairPoints(x, y, w, h);
    var a, b :| 0 <= a < b < |antennas| && q in PairPoints(antennas[a], antennas[b], w, h);
    var f := antennas[a].frequency;
    assert antennas[a] in antennas;
    assert f in Frequencies(antennas);
    assert SamePairBy(antennas, f, rel);
    FilterPairs(antennas, f, rel);
    var g := groups[f];
    var i, j :| 0 <= i < j < |g| && rel(g[i], g[j]);
    PairSetMember(g, i, j, w, h, q);
  }

  lemma CoverOut(antennas: seq<Antenna>, order: seq<char>, groups: map<char, seq<Antenna>>, w: int, h: int, q: Position, f: char)
    requires Grouped(antennas, order, groups) && f in order && q in PairSet(GroupOf(groups, f), w, h)
    ensures q in PairSet(antennas, w, h)
  {
    var rel := (x: Antenna, y: Antenna) => q in PairPoints(x, y, w, h);
    var g := groups[f];
    var i, j :| 0 <= i < j < |g| && q in PairPoints(g[i], g[j], w, h);
    assert PairBy(Filter(antennas, f), rel);
    FilterPairs(antennas, f, rel);
    var a, b :| 0 <= a < b < |antennas| && antennas[a].frequency == f && antennas[b].frequency == f
      && rel(antennas[a], antennas[b]);
    PairSetMember(antennas, a, b, w, h, q);
  }

  // ---------------------------------------------------------------- the answer

  /** The map's rows after trimming the input. */
  function Lines(input: string): (lines: seq<string>)
    ensures |lines| >= 1
  {
    Split(Trim(input), "\n")
  }

  /** The number of distinct in-map antinodes of all same-frequency pairs; the map is as
      wide as its first row and as tall as its row count. */
  function AntinodeCount(input: string): nat {
    var lines := Lines(input);
    |PairSet(AntennasOf(lines), |lines[0]|, |lines|)|
  }

  /** The body of `solve_pt1` (and, identically, of `solve_pt2`). */
  method CountAntinodes(input: string) returns (r: nat)
    ensures r == AntinodeCount(input)
  {
    var lines := Split(Trim(input), "\n");
    var height := |lines|;
    var width := |lines[0]|;
    var antennas := ParseAntennas(lines);
    var order, groups := GroupByFrequency(antennas);
    var antinodes := CollectAntinodes(order, groups, width, height);
    GroupsCover(antennas, order, groups, width, height);
    r := |antinodes|;
  }

  /** `solve_pt1`: the number of distinct in-map antinodes. Nothing in it can throw, so
      the error answer 0 is never given. */
  method SolvePt1(input: string) returns (r: nat)
    ensures r == AntinodeCount(input)
  {
    r := CountAntinodes(input);
  }

  /** `solve_pt2` repeats `solve_pt1` line for line, so it gives the same answer. */
  method SolvePt2(input: string) returns (r: nat)
    ensures r == AntinodeCount(input)
  {
    r := CountAntinodes(input);
  }

  /** An antinode counted is a point of the map on the line of two distinct antennas of
      one frequency, 99 steps before the first to 100 steps after it; and every such
      point is counted. */
  lemma AntinodeMeaning(antennas: seq<Antenna>, w: int, h: int, q: Position)
    ensures q in PairSet(antennas, w, h) <==>
      IsWithinBounds(q, w, h) &&
      exists a, b, t :: 0 <= a < b < |antennas| && antennas[a].frequency == antennas[b].frequency
        && antennas[a].position != antennas[b].position && -99 <= t <= 100
        && q == Along(antennas[a].position, antennas[b].position, t)
  {
    if q in PairSet(antennas, w, h) {
      var a, b :| 0 <= a < b < |antennas| && q in PairPoints(antennas[a], antennas[b], w, h);
      AntinodesOnLine(antennas[a], antennas[b], q);
    }
    if IsWithinBounds(q, w, h) &&
      exists a, b, t :: 0 <= a < b < |antennas| && antennas[a].frequency == antennas[b].frequency
        && antennas[a].position != antennas[b].position && -99 <= t <= 100
        && q == Along(antennas[a].position, antennas[b].position, t)
    {
      var a, b, t :| 0 <= a < b < |antennas| && antennas[a].frequency == antennas[b].frequency
        && antennas[a].position != antennas[b].position && -99 <= t <= 100
        && q == Along(antennas[a].position, antennas[b].position, t);
      AntinodesOnLine(antennas[a], antennas[b], q);
      assert q in PairPoints(antennas[a], antennas[b], w, h);
    }
  }
}
