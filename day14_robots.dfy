/** Day 14 of 2024 (node_runner/src/solved/index.day14.ts): robots move with constant
    velocity on a grid that wraps at its edges. Part 1 counts the robots in each quadrant
    after 100 seconds and multiplies the counts; part 2 looks for the first second at
    which no robot stands alone. Positions are integers; the text keys `"x,y"` of the
    source are modelled by the positions themselves. */
module Day14Robots {
  import opened Wrappers
  import opened JsText

  datatype Position = Position(x: int, y: int)
  datatype Robot = Robot(position: Position, velocity: Position)

  const SampleWidth := 11
  const SampleHeight := 7
  const PuzzleWidth := 101
  const PuzzleHeight := 103
  const SimulationTimePt1 := 100
  const SimulationTimePt2 := 10000000

  // ---------------------------------------------------------------- wrapping motion

  /** A non-zero multiple of `n` is at least `n` away from zero. */
  lemma MulBound(d: int, n: int)
    requires n > 0
    ensures d >= 1 ==> d * n >= n
    ensures d <= -1 ==> d * n <= -n
  {
    if d >= 1 {
      assert d * n == (d - 1) * n + n;
    } else if d <= -1 {
      assert d * n == -((-d - 1) * n) - n;
    }
  }

  /** The remainder of a division by a positive number is unique. */
  lemma ModUnique(a: int, n: int, q: int, r: int)
    requires n > 0 && 0 <= r < n && a == q * n + r
    ensures a % n == r
  {
    var q', r' := a / n, a % n;
    var d := q - q';
    assert q * n - q' * n == d * n;
    assert d * n == r' - r;
    MulBound(d, n);
  }

  /** Reducing before adding does not change the residue. */
  lemma ModAdd(a: int, b: int, n: int)
    requires n > 0
    ensures (a % n + b) % n == (a + b) % n
  {
    var q1, q2 := a / n, (a % n + b) / n;
    var m := (a % n + b) % n;
    assert a == q1 * n + a % n;
    assert a % n + b == q2 * n + m;
    assert a + b == (q1 + q2) * n + m;
    ModUnique(a + b, n, q1 + q2, m);
  }

  /** JavaScript `%`: the remainder of the division truncated toward zero, which takes
      the sign of the dividend. */
  function JsRem(a: int, n: int): (r: int)
    requires n > 0
    ensures -n < r < n
    ensures a >= 0 ==> r == a % n
    ensures a < 0 ==> r <= 0 && -r == (-a) % n
  {
    if a >= 0 then a % n else -((-a) % n)
  }

  /** `((a % n) + n) % n`, the wrap-around of `updatePosition`. */
  function Wrap(a: int, n: int): int
    requires n > 0
  {
    JsRem(JsRem(a, n) + n, n)
  }

  /** `Wrap` is the mathematical residue of `a` modulo `n`, whatever the sign of `a`. */
  lemma WrapIsResidue(a: int, n: int)
    requires n > 0
    ensures 0 <= Wrap(a, n) < n
    ensures Wrap(a, n) == a % n
  {
    var t := JsRem(a, n);
    assert Wrap(a, n) == (t + n) % n;
    if a >= 0 {
      ModUnique(t + n, n, 1, t);
    } else {
      var m := (-a) % n;
      var q := (-a) / n;
      assert -a == q * n + m;
      if m == 0 {
        ModUnique(t + n, n, 1, 0);
        ModUnique(a, n, -q, 0);
      } else {
        ModUnique(t + n, n, 0, n - m);
        assert a == (-q - 1) * n + (n - m);
        ModUnique(a, n, -q - 1, n - m);
      }
    }
  }

  /** `updatePosition`: one second of motion, wrapped onto the `width` × `height` grid. */
  function UpdatePosition(pos: Position, vel: Position, width: int, height: int): (r: Position)
    requires width > 0 && height > 0
    ensures 0 <= r.x < width && 0 <= r.y < height
    ensures r.x == (pos.x + vel.x) % width && r.y == (pos.y + vel.y) % height
  {
    WrapIsResidue(pos.x + vel.x, width);
    WrapIsResidue(pos.y + vel.y, height);
    Position(Wrap(pos.x + vel.x, width), Wrap(pos.y + vel.y, height))
  }

  /** Where a robot stands after `t` seconds: its start at `t = 0`, and from then on its
      straight-line position `p + t·v` reduced modulo the grid. */
  function PositionAfter(r: Robot, t: nat, width: int, height: int): Position
    requires width > 0 && height > 0
  {
    if t == 0 then r.position
    else Position((r.position.x + t * r.velocity.x) % width, (r.position.y + t * r.velocity.y) % height)
  }

  /** One more second of `updatePosition` from the closed form gives the closed form of
      the next second. */
  lemma {:induction false} StepAfter(r: Robot, t: nat, width: int, height: int)
    requires width > 0 && height > 0
    ensures UpdatePosition(PositionAfter(r, t, width, height), r.velocity, width, height)
            == PositionAfter(r, t + 1, width, height)
  {
    var p, v := r.position, r.velocity;
    if t > 0 {
      ModAdd(p.x + t * v.x, v.x, width);
      ModAdd(p.y + t * v.y, v.y, height);
      assert p.x + t * v.x + v.x == p.x + (t + 1) * v.x;
      assert p.y + t * v.y + v.y == p.y + (t + 1) * v.y;
    }
  }

  /** Every robot after `t` seconds. */
  function RobotsAfter(robots: seq<Robot>, t: nat, width: int, height: int): (rs: seq<Robot>)
    requires width > 0 && height > 0
  {
    seq(|robots|, i requires 0 <= i < |robots| =>
      Robot(PositionAfter(robots[i], t, width, height), robots[i].velocity))
  }

  /** The `robots.forEach(robot => robot.position = updatePosition(…))` step: every robot
      advances one second and keeps its velocity. */
  method StepAll(robots: seq<Robot>, width: int, height: int) returns (next: seq<Robot>)
    requires width > 0 && height > 0
    ensures |next| == |robots|
    ensures forall i :: 0 <= i < |robots| ==>
      next[i] == Robot(UpdatePosition(robots[i].position, robots[i].velocity, width, height), robots[i].velocity)
  {
    next := robots;
    var i := 0;
    while i < |robots|
      invariant 0 <= i <= |robots| && |next| == |robots|
      invariant forall j :: 0 <= j < i ==>
        next[j] == Robot(UpdatePosition(robots[j].position, robots[j].velocity, width, height), robots[j].velocity)
      invariant forall j :: i <= j < |robots| ==> next[j] == robots[j]
    {
      var robot := next[i];
      next := next[i := Robot(UpdatePosition(robot.position, robot.velocity, width, height), robot.velocity)];
      i := i + 1;
    }
  }

  /** A step from the robots after `t` seconds gives the robots after `t + 1` seconds. */
  lemma StepRobotsAfter(robots: seq<Robot>, t: nat, width: int, height: int, next: seq<Robot>)
    requires width > 0 && height > 0
    requires |next| == |robots|
    requires forall i :: 0 <= i < |robots| ==> next[i] == Robot(UpdatePosition(
      RobotsAfter(robots, t, width, height)[i].position, robots[i].velocity, width, height), robots[i].velocity)
    ensures next == RobotsAfter(robots, t + 1, width, height)
  {
    forall i | 0 <= i < |robots|
      ensures next[i] == RobotsAfter(robots, t + 1, width, height)[i]
    {
      StepAfter(robots[i], t, width, height);
    }
  }

  /** `t` seconds of motion: the robots stand where the closed form puts them. */
  method Simulate(robots: seq<Robot>, seconds: nat, width: int, height: int) returns (rs: seq<Robot>)
    requires width > 0 && height > 0
    ensures rs == RobotsAfter(robots, seconds, width, height)
  {
    rs := robots;
    var second := 0;
    assert rs == RobotsAfter(robots, 0, width, height);
    while second < seconds
      invariant 0 <= second <= seconds
      invariant rs == RobotsAfter(robots, second, width, height)
    {
      var next := StepAll(rs, width, height);
      StepRobotsAfter(robots, second, width, height, next);
      rs := next;
      second := second + 1;
    }
  }

  // ---------------------------------------------------------------- quadrants

  /** `getQuadrant`: -1 on the middle column or row; otherwise bit 0 says right of the
      middle and bit 1 says below it (0 top-left, 1 top-right, 2 bottom-left, 3
      bottom-right). */
  function GetQuadrant(pos: Position, width: int, height: int): (q: int)
    requires width > 0 && height > 0
    ensures q == -1 <==> pos.x == width / 2 || pos.y == height / 2
    ensures q != -1 ==> 0 <= q <= 3 && (q % 2 == 1 <==> pos.x > width / 2) && (q >= 2 <==> pos.y > height / 2)
  {
    var midX := width / 2;
    var midY := height / 2;
    if pos.x == midX || pos.y == midY then -1
    else if pos.x < midX then (if pos.y < midY then 0 else 2)
    else (if pos.y < midY then 1 else 3)
  }

  /** How many robots stand in quadrant `q` (or on a midline, for `q = -1`). */
  function InQuadrant(robots: seq<Robot>, q: int, width: int, height: int): (n: nat)
    requires width > 0 && height > 0
    ensures n <= |robots|
  {
    if robots == [] then 0
    else InQuadrant(robots[..|robots| - 1], q, width, height)
         + (if GetQuadrant(robots[|robots| - 1].position, width, height) == q then 1 else 0)
  }

  /** Every robot is in exactly one quadrant or on a midline. */
  lemma {:induction false} QuadrantsPartition(robots: seq<Robot>, width: int, height: int)
    requires width > 0 && height > 0
    ensures InQuadrant(robots, 0, width, height) + InQuadrant(robots, 1, width, height)
            + InQuadrant(robots, 2, width, height) + InQuadrant(robots, 3, width, height)
            + InQuadrant(robots, -1, width, height) == |robots|
  {
    if robots != [] {
      QuadrantsPartition(robots[..|robots| - 1], width, height);
    }
  }

  /** The quadrant tally of `solve_pt1`: a robot on a midline is not counted. */
  method QuadrantCounts(robots: seq<Robot>, width: int, height: int) returns (counts: seq<nat>)
    requires width > 0 && height > 0
    ensures |counts| == 4
    ensures forall q :: 0 <= q < 4 ==> counts[q] == InQuadrant(robots, q, width, height)
  {
    counts := [0, 0, 0, 0];
    var i := 0;
    while i < |robots|
      invariant 0 <= i <= |robots| && |counts| == 4
      invariant forall q :: 0 <= q < 4 ==> counts[q] == InQuadrant(robots[..i], q, width, height)
    {
      assert robots[..i + 1][..i] == robots[..i];
      var quadrant := GetQuadrant(robots[i].position, width, height);
      if quadrant != -1 {
        counts := counts[quadrant := counts[quadrant] + 1];
      }
      i := i + 1;
    }
    assert robots[..|robots|] == robots;
  }

  /** `reduce((acc, count) => acc * count, 1)`. */
  function Product(s: seq<nat>): nat {
    if s == [] then 1 else Product(s[..|s| - 1]) * s[|s| - 1]
  }

  /** The safety factor of four counts is their product. */
  lemma SafetyFactorOfFour(counts: seq<nat>)
    requires |counts| == 4
    ensures Product(counts) == counts[0] * counts[1] * counts[2] * counts[3]
  {
    var c3, c2, c1 := counts[..3], counts[..3][..2], counts[..3][..2][..1];
    assert c1[..0] == [];
    assert Product(c1) == counts[0];
    assert Product(c2) == counts[0] * counts[1];
    assert Product(c3) == counts[0] * counts[1] * counts[2];
  }

  /** The safety factor is zero exactly when some quadrant is empty. */
  lemma SafetyFactorZero(counts: seq<nat>)
    requires |counts| == 4
    ensures Product(counts) == 0 <==> 0 in counts
  {
    SafetyFactorOfFour(counts);
    var a, b, c, d := counts[0], counts[1], counts[2], counts[3];
    if a > 0 && b > 0 && c > 0 && d > 0 {
      assert a * b > 0;
      assert a * b * c > 0;
      assert a * b * c * d > 0;
    }
  }

  // ---------------------------------------------------------------- parsing

  /** A `-?\d+` group at the start of `t`: its value and its length. With a `-` that no
      digit follows, the group cannot match there. */
  function SignedPrefix(t: string): (r: Option<(int, nat)>)
    ensures r.Some? ==> 0 < r.value.1 <= |t|
  {
    if t != [] && t[0] == '-' then
      var ds := LeadingDigits(t[1..]);
      if ds == [] then None else Some((-(DecimalValue(ds) as int), 1 + |ds|))
    else
      var ds := LeadingDigits(t);
      if ds == [] then None else Some((DecimalValue(ds) as int, |ds|))
  }

  /** `/<tag>=(-?\d+),(-?\d+)/` anchored at `i`. Both groups are greedy, and the first
      must be followed by `,`, so it takes the whole run of digits. */
  function MatchAt(s: string, tag: char, i: nat): Option<Position> {
    if !OccursAt(s, [tag, '='], i) then None
    else match SignedPrefix(s[i + 2..])
      case None => None
      case Some((a, len)) =>
        var j := i + 2 + len;
        if j < |s| && s[j] == ',' then
          match SignedPrefix(s[j + 1..])
          case None => None
          case Some((b, _)) => Some(Position(a, b))
        else None
  }

  /** `s.match(/<tag>=(-?\d+),(-?\d+)/)`: the leftmost match, searching from `from`. */
  function Search(s: string, tag: char, from: nat): (r: Option<Position>)
    decreases |s| - from
    ensures r.None? ==> forall i: nat :: from <= i ==> MatchAt(s, tag, i).None?
    ensures r.Some? ==> exists i: nat :: from <= i <= |s| && MatchAt(s, tag, i) == r
                          && forall j: nat :: from <= j < i ==> MatchAt(s, tag, j).None?
  {
    if from >= |s| then
      assert forall i: nat :: from <= i ==> !OccursAt(s, [tag, '='], i);
      None
    else match MatchAt(s, tag, from)
      case Some(p) => Some(p)
      case None => Search(s, tag, from + 1)
  }

  /** The text of an integer as JavaScript prints it. */
  function IntText(n: int): string {
    if n < 0 then "-" + ToDecimal(-n) else ToDecimal(n)
  }

  /** The digits of a decimal stop at the first non-digit after them. */
  lemma {:induction false} LeadingDigitsStop(ds: string, rest: string)
    requires AllDigits(ds)
    requires rest == [] || !IsDigit(rest[0])
    ensures LeadingDigits(ds + rest) == ds
  {
    if ds != [] {
      assert (ds + rest)[1..] == ds[1..] + rest;
      LeadingDigitsStop(ds[1..], rest);
    } else {
      assert ds + rest == rest;
    }
  }

  /** A printed integer followed by a non-digit is read back as that integer. */
  lemma SignedPrefixText(n: int, rest: string)
    requires rest == [] || !IsDigit(rest[0])
    ensures SignedPrefix(IntText(n) + rest) == Some((n, |IntText(n)|))
  {
    var ds := ToDecimal(if n < 0 then -n else n);
    LeadingDigitsStop(ds, rest);
    if n < 0 {
      NegativePrefix(ds, rest);
      assert IntText(n) + rest == ['-'] + (ds + rest);
    } else {
      DigitsPrefix(ds, rest);
    }
  }

  /** A `-` and then a run of digits `ds` is one negative group. */
  lemma NegativePrefix(ds: string, rest: string)
    requires LeadingDigits(ds + rest) == ds && ds != []
    ensures AllDigits(ds)
    ensures SignedPrefix(['-'] + (ds + rest)) == Some((-(DecimalValue(ds) as int), 1 + |ds|))
  {
    var t := ['-'] + (ds + rest);
    assert t[1..] == ds + rest;
  }

  /** A run of digits `ds` is one non-negative group. */
  lemma DigitsPrefix(ds: string, rest: string)
    requires LeadingDigits(ds + rest) == ds && ds != []
    ensures AllDigits(ds)
    ensures SignedPrefix(ds + rest) == Some((DecimalValue(ds) as int, |ds|))
  {
    assert (ds + rest)[0] == ds[0];
  }

  /** The text `<tag>=x,y` that a robot line carries. */
  function PairText(tag: char, p: Position): string {
    [tag, '='] + IntText(p.x) + "," + IntText(p.y)
  }

  /** Reading back a printed pair gives the pair: the matcher inverts `PairText`. */
  lemma MatchPairText(tag: char, p: Position)
    ensures MatchAt(PairText(tag, p), tag, 0) == Some(p)
    ensures Search(PairText(tag, p), tag, 0) == Some(p)
  {
    var s := PairText(tag, p);
    var xs, ys := IntText(p.x), IntText(p.y);
    assert OccursAt(s, [tag, '='], 0);
    assert s[2..] == xs + ("," + ys);
    SignedPrefixText(p.x, "," + ys);
    var j := 2 + |xs|;
    assert s[j] == ',';
    assert s[j + 1..] == ys + [];
    SignedPrefixText(p.y, []);
  }

  /** `parseRobot`: the line is split on spaces; the first token must hold `p=x,y`, and a
      missing second token makes `velStr.match` throw before it can hold `v=x,y`. */
  function ParseRobot(line: string): (r: Result<Robot>)
    ensures r.Ok? ==> Search(Split(line, " ")[0], 'p', 0) == Some(r.value.position)
  {
    var parts := Split(line, " ");
    var posStr := parts[0];
    match Search(posStr, 'p', 0)
    case None => Err("Invalid position format: " + posStr)
    case Some(position) =>
      if |parts| < 2 then Err("TypeError")
      else match Search(parts[1], 'v', 0)
        case None => Err("Invalid velocity format: " + parts[1])
        case Some(velocity) => Ok(Robot(position, velocity))
  }

  /** A line without a well-formed position is refused with the position message, and
      one with a position but no second token with a `TypeError`. */
  lemma ParseRobotErrors(line: string)
    ensures Search(Split(line, " ")[0], 'p', 0).None? ==>
              ParseRobot(line) == Err("Invalid position format: " + Split(line, " ")[0])
    ensures Search(Split(line, " ")[0], 'p', 0).Some? && |Split(line, " ")| < 2 ==>
              ParseRobot(line) == Err("TypeError")
  {
  }

  /** The first failed result, from `from` on. */
  function FirstErr<T>(rs: seq<Result<T>>, from: nat): (k: nat)
    requires from <= |rs|
    requires exists k :: from <= k < |rs| && rs[k].Err?
    ensures from <= k < |rs| && rs[k].Err?
    ensures forall j :: from <= j < k ==> rs[j].Ok?
    decreases |rs| - from
  {
    if rs[from].Err? then from else FirstErr(rs, from + 1)
  }

  /** `Array.map` with a callback that may throw: every value, or the first error. */
  function Collect<T>(rs: seq<Result<T>>): (r: Result<seq<T>>)
    ensures r.Ok? <==> forall k :: 0 <= k < |rs| ==> rs[k].Ok?
    ensures r.Ok? ==> |r.value| == |rs| && forall k :: 0 <= k < |rs| ==> rs[k] == Ok(r.value[k])
    ensures r.Err? ==> exists k :: 0 <= k < |rs| && rs[k] == Err(r.message)
                          && forall j :: 0 <= j < k ==> rs[j].Ok?
  {
    if forall k :: 0 <= k < |rs| ==> rs[k].Ok? then Ok(seq(|rs|, k requires 0 <= k < |rs| => rs[k].value))
    else Err(rs[FirstErr(rs, 0)].message)
  }

  /** `lines.map(parseRobot)`. */
  function ParseAll(lines: seq<string>): Result<seq<Robot>> {
    Collect(seq(|lines|, k requires 0 <= k < |lines| => ParseRobot(lines[k])))
  }

  /** `input.trim().split('\n').map(parseRobot)`. */
  function ParseInput(input: string): Result<seq<Robot>> {
    ParseAll(Split(Trim(input), "\n"))
  }

  // ---------------------------------------------------------------- part 1

  /** `solve_pt1`: 100 seconds on the sample-sized grid (the source uses the 11 × 7 grid
      here whatever the input), then the product of the quadrant counts. */
  method SolvePt1(input: string) returns (r: Result<nat>)
    ensures ParseInput(input).Err? ==> r == Err(ParseInput(input).message)
    ensures ParseInput(input).Ok? ==>
      var final := RobotsAfter(ParseInput(input).value, SimulationTimePt1, SampleWidth, SampleHeight);
      r == Ok(InQuadrant(final, 0, SampleWidth, SampleHeight) * InQuadrant(final, 1, SampleWidth, SampleHeight)
              * InQuadrant(final, 2, SampleWidth, SampleHeight) * InQuadrant(final, 3, SampleWidth, SampleHeight))
  {
    var parsed := ParseInput(input);
    if parsed.Err? {
      return Err(parsed.message);
    }
    var robots := Simulate(parsed.value, SimulationTimePt1, SampleWidth, SampleHeight);
    var counts := QuadrantCounts(robots, SampleWidth, SampleHeight);
    SafetyFactorOfFour(counts);
    return Ok(Product(counts));
  }
}
