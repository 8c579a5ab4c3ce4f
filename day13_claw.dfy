/** Day 13 (solved_work_Day13): claw machines with two buttons. Button A costs 3 tokens
    and button B costs 1; each press moves the claw by the button's offset, and a machine
    is won when the claw lands exactly on the prize. The solver reads the machines from
    blocks of three lines and searches every press count from 0 to 100 for each button. */
module Day13Claw {
  import opened Wrappers
  import opened JsText

  // ---------------------------------------------------------------- data

  /** An `{x, y}` pair as `parseInt` reads it; `None` is NaN. */
  datatype Vec = Vec(x: Option<int>, y: Option<int>)

  datatype Machine = Machine(buttonA: Vec, buttonB: Vec, prize: Vec)

  /** The `Partial<ClawMachine>` being filled in: a key is present once its line was read. */
  datatype Partial = Partial(buttonA: Option<Vec>, buttonB: Option<Vec>, prize: Option<Vec>)

  const Empty := Partial(None, None, None)

  /** `Object.keys(currentMachine).length`. */
  function KeyCount(p: Partial): (n: nat)
    ensures n <= 3
    ensures n == 0 <==> p == Empty
  {
    (if p.buttonA.Some? then 1 else 0) + (if p.buttonB.Some? then 1 else 0)
    + (if p.prize.Some? then 1 else 0)
  }

  function AsMachine(p: Partial): Machine
    requires KeyCount(p) == 3
  {
    Machine(p.buttonA.value, p.buttonB.value, p.prize.value)
  }

  // ---------------------------------------------------------------- one line

  /** `s.replace(c, '')`: a string pattern replaces only its first occurrence. */
  function RemoveFirst(s: string, c: char): (r: string)
    ensures c in s ==> |r| == |s| - 1 && multiset(r) + multiset{c} == multiset(s)
    ensures c !in s ==> r == s
  {
    if s == [] then []
    else if s[0] == c then
      assert s == [c] + s[1..];
      s[1..]
    else
      assert s == [s[0]] + s[1..];
      [s[0]] + RemoveFirst(s[1..], c)
  }

  /** A coordinate with its axis letter, its first `=` and its first `+` removed, then read
      by `parseInt`. */
  function Coordinate(part: string, axis: char): Option<int> {
    ParseInt(RemoveFirst(RemoveFirst(RemoveFirst(part, axis), '='), '+'))
  }

  /** The text between the first and the second `": "` of a line, or "" with no `": "`. */
  function CoordText(t: string): string {
    var parts := Split(t, ": ");
    if |parts| < 2 then "" else parts[1]
  }

  /** One trimmed, non-blank line: its type (the text before `": "`) and its two
      coordinates. A line with no `": "` leaves `coords` undefined and one whose
      coordinates have no `", "` leaves `yPart` undefined; calling a method on either
      throws a TypeError. */
  function ParseLine(t: string): (r: Result<(string, Vec)>)
    ensures r.Err? <==> !Contains(t, ": ") || !Contains(CoordText(t), ", ")
    ensures r.Err? ==> r.message == "TypeError"
    ensures r.Ok? ==> r.value.0 == Split(t, ": ")[0] && !Contains(r.value.0, ": ")
  {
    SplitContains(t, ": ");
    var parts := Split(t, ": ");
    if |parts| < 2 then Err("TypeError")
    else
      var coords := Split(parts[1], ", ");
      SplitContains(parts[1], ", ");
      if |coords| < 2 then Err("TypeError")
      else Ok((parts[0], Vec(Coordinate(coords[0], 'X'), Coordinate(coords[1], 'Y'))))
  }

  /** The `switch (type)`: the three known types set their key, any other type is ignored. */
  function Assign(p: Partial, kind: string, v: Vec): (q: Partial)
    ensures KeyCount(q) <= KeyCount(p) + 1
    ensures kind != "Prize" ==> q.prize == p.prize
  {
    if kind == "Button A" then p.(buttonA := Some(v))
    else if kind == "Button B" then p.(buttonB := Some(v))
    else if kind == "Prize" then p.(prize := Some(v))
    else p
  }

  // ---------------------------------------------------------------- the line loop

  /** The machines pushed so far and the machine being filled in. */
  datatype Scan = Scan(machines: seq<Machine>, current: Partial)

  /** The machines after pushing the current one if it has all three keys. */
  function Flush(st: Scan): (ms: seq<Machine>)
    ensures |ms| == |st.machines| + (if KeyCount(st.current) == 3 then 1 else 0)
  {
    if KeyCount(st.current) == 3 then st.machines + [AsMachine(st.current)] else st.machines
  }

  /** What one line contributes: a blank line, or a type and its coordinates. */
  datatype Entry = Blank | Keyed(kind: string, v: Vec)

  /** One line, trimmed: blank, or parsed by `ParseLine` (which may throw). */
  function Classify(line: string): Result<Entry> {
    var t := Trim(line);
    if t == [] then Ok(Blank)
    else match ParseLine(t)
      case Err(e) => Err(e)
      case Ok(entry) => Ok(Keyed(entry.0, entry.1))
  }

  function Classified(lines: seq<string>): (es: seq<Result<Entry>>)
    ensures |es| == |lines|
  {
    MapSeq(Classify, lines)
  }

  /** `xs.map(f)`. */
  function MapSeq<A, B>(f: A -> B, xs: seq<A>): (ys: seq<B>)
    ensures |ys| == |xs|
  {
    if xs == [] then [] else [f(xs[0])] + MapSeq(f, xs[1..])
  }

  lemma {:induction false} MapAt<A, B>(f: A -> B, xs: seq<A>, i: nat)
    requires i < |xs|
    ensures MapSeq(f, xs)[i] == f(xs[i])
  {
    if i > 0 {
      MapAt(f, xs[1..], i - 1);
    }
  }

  lemma MapFour<A, B>(f: A -> B, x0: A, x1: A, x2: A, x3: A)
    ensures MapSeq(f, [x0, x1, x2, x3]) == [f(x0), f(x1), f(x2), f(x3)]
  {
    assert [x0, x1, x2, x3][1..] == [x1, x2, x3];
    assert [x1, x2, x3][1..] == [x2, x3];
    assert [x2, x3][1..] == [x3];
    assert MapSeq(f, [x3]) == [f(x3)];
    assert MapSeq(f, [x2, x3]) == [f(x2), f(x3)];
    assert MapSeq(f, [x1, x2, x3]) == [f(x1), f(x2), f(x3)];
  }

  lemma {:induction false} MapAppend<A, B>(f: A -> B, a: seq<A>, b: seq<A>)
    ensures MapSeq(f, a + b) == MapSeq(f, a) + MapSeq(f, b)
    decreases |a|
  {
    if a == [] {
      assert a + b == b;
    } else {
      MapAppend(f, a[1..], b);
      assert (a + b)[0] == a[0] && (a + b)[1..] == a[1..] + b;
      var head, rest := [f(a[0])], MapSeq(f, b);
      calc {
        MapSeq(f, a + b);
        head + MapSeq(f, a[1..] + b);
        head + (MapSeq(f, a[1..]) + rest);
        (head + MapSeq(f, a[1..])) + rest;
        MapSeq(f, a) + rest;
      }
    }
  }

  lemma {:induction false} MapConcat<A, B>(f: A -> B, chunks: seq<seq<A>>)
    ensures MapSeq(f, Concat(chunks))
      == Concat(seq(|chunks|, i requires 0 <= i < |chunks| => MapSeq(f, chunks[i])))
    decreases |chunks|
  {
    var cs := seq(|chunks|, i requires 0 <= i < |chunks| => MapSeq(f, chunks[i]));
    if chunks != [] {
      MapConcat(f, chunks[1..]);
      MapAppend(f, chunks[0], Concat(chunks[1..]));
      var tail := seq(|chunks[1..]|, i requires 0 <= i < |chunks[1..]| => MapSeq(f, chunks[1..][i]));
      assert cs[1..] == tail;
    }
  }

  /** One iteration of the line loop: a blank line flushes and starts a new machine,
      any other line sets the key of its type. */
  function Step(st: Scan, e: Entry): Scan {
    match e
    case Blank => Scan(Flush(st), Empty)
    case Keyed(kind, v) => Scan(st.machines, Assign(st.current, kind, v))
  }

  /** The loop over the lines from `st`; the first line that throws ends it. */
  function RunFrom(st: Scan, es: seq<Result<Entry>>): Result<Scan>
    decreases |es|
  {
    if es == [] then Ok(st)
    else match es[0]
      case Err(e) => Err(e)
      case Ok(e) => RunFrom(Step(st, e), es[1..])
  }

  /** `parseInput`: the loop over the lines, then the final flush. */
  function Parse(lines: seq<string>): Result<seq<Machine>> {
    match RunFrom(Scan([], Empty), Classified(lines))
    case Err(e) => Err(e)
    case Ok(st) => Ok(Flush(st))
  }

  lemma Advance(st: Scan, es: seq<Result<Entry>>, i: nat, e: Entry)
    requires i < |es| && es[i] == Ok(e)
    ensures RunFrom(st, es[i..]) == RunFrom(Step(st, e), es[i + 1..])
  {
    assert es[i..][0] == es[i] && es[i..][1..] == es[i + 1..];
  }

  /** `parseInput`, the loop as written. */
  method ParseInput(lines: seq<string>) returns (r: Result<seq<Machine>>)
    ensures r == Parse(lines)
  {
    ghost var es := Classified(lines);
    var machines: seq<Machine> := [];
    var current := Empty;
    var i := 0;
    while i < |lines|
      invariant 0 <= i <= |lines|
      invariant RunFrom(Scan(machines, current), es[i..]) == RunFrom(Scan([], Empty), es)
    {
      ghost var st := Scan(machines, current);
      MapAt(Classify, lines, i);
      var line := Trim(lines[i]);
      if line == [] {
        if KeyCount(current) == 3 {
          machines := machines + [AsMachine(current)];
        }
        current := Empty;
        assert Classify(lines[i]) == Ok(Blank);
        Advance(st, es, i, Blank);
        assert Scan(machines, current) == Step(st, Blank);
        i := i + 1;
        continue;
      }
      var parsed := ParseLine(line);
      if parsed.Err? {
        assert Classify(lines[i]) == Err(parsed.message);
        assert es[i..][0] == es[i];
        return Err(parsed.message);
      }
      var (kind, v) := parsed.value;
      assert Classify(lines[i]) == Ok(Keyed(kind, v));
      if kind == "Button A" {
        current := current.(buttonA := Some(v));
      } else if kind == "Button B" {
        current := current.(buttonB := Some(v));
      } else if kind == "Prize" {
        current := current.(prize := Some(v));
      }
      assert current == Assign(st.current, kind, v);
      Advance(st, es, i, Keyed(kind, v));
      i := i + 1;
    }
    if KeyCount(current) == 3 {
      machines := machines + [AsMachine(current)];
    }
    r := Ok(machines);
  }

  // ---------------------------------------------------------------- parsing properties

  /** Each line adds at most one key, and a machine needs three keys. */
  lemma {:induction false} RunFromCount(st: Scan, es: seq<Result<Entry>>)
    requires RunFrom(st, es).Ok?
    ensures var end := RunFrom(st, es).value;
      3 * |end.machines| + KeyCount(end.current)
      <= 3 * |st.machines| + KeyCount(st.current) + |es|
    decreases |es|
  {
    if es != [] {
      RunFromCount(Step(st, es[0].value), es[1..]);
    }
  }

  /** A machine is emitted only for three lines read: at most one machine per three lines. */
  lemma MachinesNeedThreeLines(lines: seq<string>)
    requires Parse(lines).Ok?
    ensures 3 * |Parse(lines).value| <= |lines|
  {
    RunFromCount(Scan([], Empty), Classified(lines));
  }

  /** The text before a line's first `": "`. */
  function LineKind(line: string): string {
    Split(Trim(line), ": ")[0]
  }

  /** The type a parsed line reports is the text before its first `": "`. */
  lemma ClassifyKind(line: string)
    requires Classify(line).Ok? && Classify(line).value.Keyed?
    ensures Classify(line).value.kind == LineKind(line)
  {
  }

  lemma {:induction false} NoPrizeRun(st: Scan, es: seq<Result<Entry>>)
    requires st.machines == [] && st.current.prize.None?
    requires forall i :: 0 <= i < |es| && es[i].Ok? && es[i].value.Keyed? ==> es[i].value.kind != "Prize"
    requires RunFrom(st, es).Ok?
    ensures RunFrom(st, es).value.machines == []
    ensures RunFrom(st, es).value.current.prize.None?
    decreases |es|
  {
    if es != [] {
      var next := Step(st, es[0].value);
      forall i | 0 <= i < |es[1..]| && es[1..][i].Ok? && es[1..][i].value.Keyed?
        ensures es[1..][i].value.kind != "Prize"
      {
        assert es[1..][i] == es[i + 1];
      }
      NoPrizeRun(next, es[1..]);
    }
  }

  /** Without a `Prize` line no machine is ever complete, so none is emitted. */
  lemma NoPrizeNoMachine(lines: seq<string>)
    requires forall i :: 0 <= i < |lines| ==> LineKind(lines[i]) != "Prize"
    requires Parse(lines).Ok?
    ensures Parse(lines).value == []
  {
    var es := Classified(lines);
    forall i | 0 <= i < |es| && es[i].Ok? && es[i].value.Keyed?
      ensures es[i].value.kind != "Prize"
    {
      MapAt(Classify, lines, i);
      ClassifyKind(lines[i]);
    }
    NoPrizeRun(Scan([], Empty), es);
  }

  lemma RunCons(st: Scan, es: seq<Result<Entry>>)
    requires es != [] && es[0].Ok?
    ensures RunFrom(st, es) == RunFrom(Step(st, es[0].value), es[1..])
  {
  }

  /** Reading `a + b` reads `a`, then goes on with `b` from where `a` left off. */
  lemma {:induction false} RunAppend(st: Scan, a: seq<Result<Entry>>, b: seq<Result<Entry>>, mid: Scan)
    requires RunFrom(st, a) == Ok(mid)
    ensures RunFrom(st, a + b) == RunFrom(mid, b)
    decreases |a|
  {
    if a == [] {
      assert a + b == b;
    } else {
      var ab := a + b;
      assert ab[0] == a[0] && ab[1..] == a[1..] + b;
      RunCons(st, a);
      RunCons(st, ab);
      RunAppend(Step(st, a[0].value), a[1..], b, mid);
    }
  }

  // ---------------------------------------------------------------- the input format

  /** A machine whose six coordinates are defined and non-negative. */
  predicate Printable(m: Machine) {
    m.buttonA.x.Some? && m.buttonA.y.Some? && m.buttonB.x.Some? && m.buttonB.y.Some?
    && m.prize.x.Some? && m.prize.y.Some?
    && m.buttonA.x.value >= 0 && m.buttonA.y.value >= 0 && m.buttonB.x.value >= 0
    && m.buttonB.y.value >= 0 && m.prize.x.value >= 0 && m.prize.y.value >= 0
  }

  /** One coordinate as the puzzle writes it: `X+94` or `Y=5400`. */
  function Part(axis: char, sign: char, n: nat): string {
    [axis, sign] + ToDecimal(n)
  }

  /** A line of the puzzle input: `Button A: X+94, Y+34` or `Prize: X=8400, Y=5400`. */
  function LineOf(kind: string, sign: char, x: nat, y: nat): string {
    kind + ": " + (Part('X', sign, x) + ", " + Part('Y', sign, y))
  }

  /** The three lines of a machine and the blank line after it. */
  function Block(m: Machine): (lines: seq<string>)
    requires Printable(m)
    ensures |lines| == 4
  {
    [ LineOf("Button A", '+', m.buttonA.x.value, m.buttonA.y.value)
    , LineOf("Button B", '+', m.buttonB.x.value, m.buttonB.y.value)
    , LineOf("Prize", '=', m.prize.x.value, m.prize.y.value)
    , "" ]
  }

  predicate AllPrintable(ms: seq<Machine>) {
    forall i :: 0 <= i < |ms| ==> Printable(ms[i])
  }

  /** The puzzle input for `ms`: the blocks one after another. */
  function Blocks(ms: seq<Machine>): seq<string>
    requires AllPrintable(ms)
  {
    Concat(seq(|ms|, i requires 0 <= i < |ms| => Block(ms[i])))
  }

  function Concat<T>(chunks: seq<seq<T>>): seq<T> {
    if chunks == [] then [] else chunks[0] + Concat(chunks[1..])
  }

  lemma DigitsLack(s: string, c: char)
    requires AllDigits(s) && !IsDigit(c)
    ensures c !in s
  {
    forall i | 0 <= i < |s| ensures s[i] != c {
      assert IsDigit(s[i]);
    }
  }

  lemma PartLacks(axis: char, sign: char, n: nat, c: char)
    requires c != axis && c != sign && !IsDigit(c)
    ensures c !in Part(axis, sign, n)
  {
    DigitsLack(ToDecimal(n), c);
    assert multiset(Part(axis, sign, n)) == multiset{axis, sign} + multiset(ToDecimal(n));
  }

  /** The coordinate text of a rendered line reads back as its number. */
  lemma CoordinateOf(axis: char, sign: char, n: nat)
    requires sign == '+' || sign == '='
    requires !IsDigit(axis) && axis != '=' && axis != '+'
    ensures Coordinate(Part(axis, sign, n), axis) == Some(n)
  {
    var d := ToDecimal(n);
    DigitsLack(d, '=');
    DigitsLack(d, '+');
    var p := Part(axis, sign, n);
    assert p[0] == axis && p[1..] == [sign] + d;
    var s1 := RemoveFirst(p, axis);
    assert s1 == [sign] + d;
    assert s1[0] == sign && s1[1..] == d;
    if sign == '=' {
      assert RemoveFirst(s1, '=') == d;
    } else {
      assert '=' !in s1;
      assert RemoveFirst(s1, '+') == d;
    }
    ParseIntOfDecimal(n);
  }

  lemma NotInJoined(a: string, sep: string, b: string, c: char)
    requires c !in a && c !in sep && c !in b
    ensures c !in a + sep + b
  {
    forall k | 0 <= k < |a + sep + b| ensures (a + sep + b)[k] != c {
      if k < |a| { assert (a + sep + b)[k] == a[k]; }
      else if k < |a| + |sep| { assert (a + sep + b)[k] == sep[k - |a|]; }
      else { assert (a + sep + b)[k] == b[k - |a| - |sep|]; }
    }
  }

  lemma CoordsSplit(sign: char, x: nat, y: nat)
    requires sign == '+' || sign == '='
    ensures ':' !in Part('X', sign, x) + ", " + Part('Y', sign, y)
    ensures Split(Part('X', sign, x) + ", " + Part('Y', sign, y), ", ")
      == [Part('X', sign, x), Part('Y', sign, y)]
  {
    var xs, ys := Part('X', sign, x), Part('Y', sign, y);
    PartLacks('X', sign, x, ':');
    PartLacks('Y', sign, y, ':');
    PartLacks('X', sign, x, ',');
    PartLacks('Y', sign, y, ',');
    NotInJoined(xs, ", ", ys, ':');
    SplitFirst(xs, ", ", ys);
    SplitAbsent(ys, ", ");
  }

  /** A rendered line is already trimmed and parses back to its type and coordinates. */
  lemma ParseLineOf(kind: string, sign: char, x: nat, y: nat)
    requires sign == '+' || sign == '='
    requires kind != [] && !IsJsWhitespace(kind[0]) && ':' !in kind
    ensures Trim(LineOf(kind, sign, x, y)) == LineOf(kind, sign, x, y)
    ensures ParseLine(LineOf(kind, sign, x, y)) == Ok((kind, Vec(Some(x), Some(y))))
  {
    var coords := Part('X', sign, x) + ", " + Part('Y', sign, y);
    var line := LineOf(kind, sign, x, y);
    var dy := ToDecimal(y);
    assert line[0] == kind[0];
    assert line[|line| - 1] == dy[|dy| - 1];
    TrimSolid(line);
    CoordsSplit(sign, x, y);
    SplitFirst(kind, ": ", coords);
    SplitAbsent(coords, ": ");
    CoordinateOf('X', sign, x);
    CoordinateOf('Y', sign, y);
  }

  /** A line type that `trim` keeps and that holds no `:`. */
  predicate PlainKind(kind: string) {
    kind != [] && !IsJsWhitespace(kind[0]) && ':' !in kind
  }

  lemma KindsPlain()
    ensures PlainKind("Button A") && PlainKind("Button B") && PlainKind("Prize")
  {
  }

  /** A rendered line reads as its type and coordinates. */
  lemma ClassifyLine(kind: string, sign: char, x: nat, y: nat)
    requires sign == '+' || sign == '='
    requires PlainKind(kind)
    ensures Classify(LineOf(kind, sign, x, y)) == Ok(Keyed(kind, Vec(Some(x), Some(y))))
  {
    ParseLineOf(kind, sign, x, y);
    var line := LineOf(kind, sign, x, y);
    assert Trim(line) != [];
  }

  /** What the four lines of a machine's block read as. */
  function Entries(m: Machine): (es: seq<Result<Entry>>)
    ensures |es| == 4
  {
    [Ok(Keyed("Button A", m.buttonA)), Ok(Keyed("Button B", m.buttonB)),
     Ok(Keyed("Prize", m.prize)), Ok(Blank)]
  }

  lemma ClassifyBlock(m: Machine)
    requires Printable(m)
    ensures Classified(Block(m)) == Entries(m)
  {
    var a, b, p := m.buttonA, m.buttonB, m.prize;
    var l0 := LineOf("Button A", '+', a.x.value, a.y.value);
    var l1 := LineOf("Button B", '+', b.x.value, b.y.value);
    var l2 := LineOf("Prize", '=', p.x.value, p.y.value);
    assert Block(m) == [l0, l1, l2, ""];
    KindsPlain();
    ClassifyLine("Button A", '+', a.x.value, a.y.value);
    ClassifyLine("Button B", '+', b.x.value, b.y.value);
    ClassifyLine("Prize", '=', p.x.value, p.y.value);
    assert Classify("") == Ok(Blank) by { assert Trim("") == []; }
    MapFour(Classify, l0, l1, l2, "");
  }

  /** A block puts its machine after the ones already read and leaves an empty machine. */
  lemma RunBlock(st: Scan, m: Machine)
    requires st.current == Empty
    ensures RunFrom(st, Entries(m)) == Ok(Scan(st.machines + [m], Empty))
  {
    var es := Entries(m);
    var s1 := Step(st, es[0].value);
    var s2 := Step(s1, es[1].value);
    var s3 := Step(s2, es[2].value);
    assert s3 == Scan(st.machines, Partial(Some(m.buttonA), Some(m.buttonB), Some(m.prize)));
    RunCons(st, es);
    RunCons(s1, es[1..]);
    RunCons(s2, es[2..]);
    RunCons(s3, es[3..]);
    assert es[1..][1..] == es[2..] && es[2..][1..] == es[3..] && es[3..][1..] == [];
  }

  /** Each chunk, read from an empty machine, reads one more machine. */
  ghost predicate ChunksRead(chunks: seq<seq<Result<Entry>>>, ms: seq<Machine>) {
    |chunks| == |ms|
    && forall i: int, s: Scan :: 0 <= i < |ms| && s.current == Empty ==>
      RunFrom(s, chunks[i]) == Ok(Scan(s.machines + [ms[i]], Empty))
  }

  lemma ChunksReadTail(chunks: seq<seq<Result<Entry>>>, ms: seq<Machine>)
    requires ChunksRead(chunks, ms) && ms != []
    ensures ChunksRead(chunks[1..], ms[1..])
  {
    forall i: int, s: Scan | 0 <= i < |ms[1..]| && s.current == Empty
      ensures RunFrom(s, chunks[1..][i]) == Ok(Scan(s.machines + [ms[1..][i]], Empty))
    {
      assert chunks[1..][i] == chunks[i + 1];
      assert ms[1..][i] == ms[i + 1];
    }
  }

  lemma ChunkHead(st: Scan, chunks: seq<seq<Result<Entry>>>, ms: seq<Machine>)
    requires ChunksRead(chunks, ms) && st.current == Empty && ms != []
    ensures RunFrom(st, chunks[0]) == Ok(Scan(st.machines + [ms[0]], Empty))
  {
  }

  lemma AppendHead<T>(a: seq<T>, b: seq<T>)
    requires b != []
    ensures a + [b[0]] + b[1..] == a + b
  {
    assert b == [b[0]] + b[1..];
  }

  /** Chunks that each read one machine read all of them, in order. */
  lemma {:induction false} RunChunks(st: Scan, chunks: seq<seq<Result<Entry>>>, ms: seq<Machine>)
    requires ChunksRead(chunks, ms) && st.current == Empty
    ensures RunFrom(st, Concat(chunks)) == Ok(Scan(st.machines + ms, Empty))
    decreases |ms|
  {
    if ms == [] {
      assert st.machines + ms == st.machines;
    } else {
      var mid := Scan(st.machines + [ms[0]], Empty);
      ChunkHead(st, chunks, ms);
      RunAppend(st, chunks[0], Concat(chunks[1..]), mid);
      ChunksReadTail(chunks, ms);
      RunChunks(mid, chunks[1..], ms[1..]);
      AppendHead(st.machines, ms);
    }
  }

  /** The entries of each machine's block, machine by machine. */
  function EntryChunks(ms: seq<Machine>): (chunks: seq<seq<Result<Entry>>>)
    ensures |chunks| == |ms|
  {
    seq(|ms|, i requires 0 <= i < |ms| => Entries(ms[i]))
  }

  lemma ClassifyBlocks(ms: seq<Machine>)
    requires AllPrintable(ms)
    ensures Classified(Blocks(ms)) == Concat(EntryChunks(ms))
  {
    var lines := seq(|ms|, i requires 0 <= i < |ms| => Block(ms[i]));
    MapConcat(Classify, lines);
    var read := seq(|lines|, i requires 0 <= i < |lines| => MapSeq(Classify, lines[i]));
    forall i | 0 <= i < |ms| ensures read[i] == EntryChunks(ms)[i] {
      ClassifyBlock(ms[i]);
    }
    assert read == EntryChunks(ms);
  }

  lemma BlocksRead(ms: seq<Machine>)
    ensures ChunksRead(EntryChunks(ms), ms)
  {
    var chunks := EntryChunks(ms);
    forall i: int, s: Scan | 0 <= i < |ms| && s.current == Empty
      ensures RunFrom(s, chunks[i]) == Ok(Scan(s.machines + [ms[i]], Empty))
    {
      RunBlock(s, ms[i]);
    }
  }

  /** Reading the puzzle format back: blocks of three lines, each followed by a blank
      line, parse to exactly the machines they were written from. */
  lemma ParseBlocks(ms: seq<Machine>)
    requires AllPrintable(ms)
    ensures Parse(Blocks(ms)) == Ok(ms)
  {
    ClassifyBlocks(ms);
    BlocksRead(ms);
    RunChunks(Scan([], Empty), EntryChunks(ms), ms);
    assert [] + ms == ms;
  }

  // ---------------------------------------------------------------- the press search

  const MaxPresses: nat := 100

  /** The claw lands on the prize after `a` presses of A and `b` presses of B. A NaN
      coordinate makes `finalX` or the prize NaN, and NaN equals nothing. */
  predicate Hits(m: Machine, a: int, b: int) {
    m.buttonA.x.Some? && m.buttonA.y.Some? && m.buttonB.x.Some? && m.buttonB.y.Some?
    && m.prize.x.Some? && m.prize.y.Some?
    && m.buttonA.x.value * a + m.buttonB.x.value * b == m.prize.x.value
    && m.buttonA.y.value * a + m.buttonB.y.value * b == m.prize.y.value
  }

  function Tokens(a: nat, b: nat): nat { 3 * a + 1 * b }

  /** One inner-loop iteration: a hit lowers `minTokens` (None is `Infinity`). */
  function Update(best: Option<nat>, m: Machine, a: nat, b: nat): Option<nat> {
    if Hits(m, a, b) && (best.None? || Tokens(a, b) < best.value) then Some(Tokens(a, b))
    else best
  }

  /** `minTokens` after the presses b < n of row a. */
  function RowBest(m: Machine, a: nat, n: nat, start: Option<nat>): Option<nat> {
    if n == 0 then start else Update(RowBest(m, a, n - 1, start), m, a, n - 1)
  }

  /** `minTokens` after the rows a < n. */
  function GridBest(m: Machine, n: nat): Option<nat> {
    if n == 0 then None else RowBest(m, n - 1, MaxPresses + 1, GridBest(m, n - 1))
  }

  /** The fewest tokens that win the machine within 100 presses per button, or None. */
  function Cheapest(m: Machine): Option<nat> {
    GridBest(m, MaxPresses + 1)
  }

  /** `findMinimumTokens`: the nested loops with `minTokens` and `solvable`. */
  method FindMinimumTokens(m: Machine) returns (r: Option<nat>)
    ensures r == Cheapest(m)
  {
    var minTokens: Option<nat> := None;
    var solvable := false;
    var a := 0;
    while a <= MaxPresses
      invariant 0 <= a <= MaxPresses + 1
      invariant minTokens == GridBest(m, a)
      invariant solvable <==> minTokens.Some?
    {
      var b := 0;
      while b <= MaxPresses
        invariant 0 <= b <= MaxPresses + 1
        invariant minTokens == RowBest(m, a, b, GridBest(m, a))
        invariant solvable <==> minTokens.Some?
      {
        var hit := Hits(m, a, b);
        if hit {
          solvable := true;
          var tokens := 3 * a + 1 * b;
          if minTokens.None? || tokens < minTokens.value {
            minTokens := Some(tokens);
          }
        }
        b := b + 1;
      }
      a := a + 1;
    }
    r := if solvable then minTokens else None;
  }

  /** (a', b') comes before (a, b) in the scan order of the two loops. */
  predicate Before(a': int, b': int, a: int, b: int) {
    a' < a || (a' == a && b' < b)
  }

  predicate InRange(a: int, b: int) {
    0 <= a <= MaxPresses && 0 <= b <= MaxPresses
  }

  /** `best` is the fewest tokens over the hits scanned before (a, b), or None if there
      was none. */
  ghost predicate BestSoFar(m: Machine, best: Option<nat>, a: int, b: int) {
    && (best.None? <==> forall a', b' :: InRange(a', b') && Before(a', b', a, b) ==> !Hits(m, a', b'))
    && (best.Some? ==> exists a', b' :: InRange(a', b') && Before(a', b', a, b) && Hits(m, a', b')
                                        && Tokens(a', b') == best.value)
    && (best.Some? ==> forall a', b' :: InRange(a', b') && Before(a', b', a, b) && Hits(m, a', b') ==>
                                        best.value <= Tokens(a', b'))
  }

  lemma UpdateStep(m: Machine, best: Option<nat>, a: nat, b: nat)
    requires a <= MaxPresses && b <= MaxPresses
    requires BestSoFar(m, best, a, b)
    ensures BestSoFar(m, Update(best, m, a, b), a, b + 1)
  {
    var next := Update(best, m, a, b);
    if next.Some? && Hits(m, a, b) {
      assert InRange(a, b) && Before(a, b, a, b + 1);
    }
    if next.Some? && next != best {
      assert Tokens(a, b) == next.value;
    }
  }

  lemma {:induction false} RowBestMeaning(m: Machine, a: nat, n: nat, start: Option<nat>)
    requires a <= MaxPresses && n <= MaxPresses + 1
    requires BestSoFar(m, start, a, 0)
    ensures BestSoFar(m, RowBest(m, a, n, start), a, n)
  {
    if n > 0 {
      RowBestMeaning(m, a, n - 1, start);
      UpdateStep(m, RowBest(m, a, n - 1, start), a, n - 1);
    }
  }

  lemma NextRow(m: Machine, best: Option<nat>, a: nat)
    requires BestSoFar(m, best, a, MaxPresses + 1)
    ensures BestSoFar(m, best, a + 1, 0)
  {
    assert forall a', b' :: InRange(a', b') ==>
      (Before(a', b', a, MaxPresses + 1) <==> Before(a', b', a + 1, 0));
  }

  lemma {:induction false} GridBestMeaning(m: Machine, n: nat)
    requires n <= MaxPresses + 1
    ensures BestSoFar(m, GridBest(m, n), n, 0)
  {
    if n > 0 {
      GridBestMeaning(m, n - 1);
      RowBestMeaning(m, n - 1, MaxPresses + 1, GridBest(m, n - 1));
      NextRow(m, GridBest(m, n), n - 1);
    }
  }

  /** The search finds nothing exactly when no press counts in [0, 100]² reach the
      prize; otherwise it finds the fewest tokens over all such counts, at most 400. */
  lemma CheapestMeaning(m: Machine)
    ensures Cheapest(m).None? <==> forall a, b :: InRange(a, b) ==> !Hits(m, a, b)
    ensures Cheapest(m).Some? ==>
      (exists a, b :: InRange(a, b) && Hits(m, a, b) && Tokens(a, b) == Cheapest(m).value)
      && (forall a, b :: InRange(a, b) && Hits(m, a, b) ==> Cheapest(m).value <= Tokens(a, b))
      && Cheapest(m).value <= 3 * MaxPresses + MaxPresses
  {
    GridBestMeaning(m, MaxPresses + 1);
    assert forall a, b :: InRange(a, b) ==> Before(a, b, MaxPresses + 1, 0);
  }

  /** A machine with a NaN coordinate is never won. */
  lemma NaNUnsolvable(m: Machine)
    requires !Defined(m)
    ensures Cheapest(m).None?
  {
    CheapestMeaning(m);
  }

  // ---------------------------------------------------------------- the BigInt search

  /** All six coordinates are numbers. */
  predicate Defined(m: Machine) {
    m.buttonA.x.Some? && m.buttonA.y.Some? && m.buttonB.x.Some? && m.buttonB.y.Some?
    && m.prize.x.Some? && m.prize.y.Some?
  }

  /** `findMinimumTokensWithBigInt`: `BigInt(NaN)` throws a RangeError; otherwise the
      same 101 × 101 search, on exact integers. */
  method FindMinimumTokensWithBigInt(m: Machine) returns (r: Result<Option<nat>>)
    ensures !Defined(m) ==> r == Err("RangeError")
    ensures Defined(m) ==> r == Ok(Cheapest(m))
  {
    if !Defined(m) {
      return Err("RangeError");
    }
    var tokens := FindMinimumTokens(m);
    r := Ok(tokens);
  }

  // ---------------------------------------------------------------- the answers

  function TokensOrZero(t: Option<nat>): nat {
    if t.Some? then t.value else 0
  }

  /** The tokens summed over the machines that can be won. */
  function TotalTokens(ms: seq<Machine>): nat {
    if ms == [] then 0 else TotalTokens(ms[..|ms| - 1]) + TokensOrZero(Cheapest(ms[|ms| - 1]))
  }

  lemma {:induction false} TotalTokensBound(ms: seq<Machine>)
    ensures TotalTokens(ms) <= 400 * |ms|
  {
    if ms != [] {
      TotalTokensBound(ms[..|ms| - 1]);
      CheapestMeaning(ms[|ms| - 1]);
    }
  }

  /** The input text cut into lines. `split(/\r?\n/)` also drops a `\r` before each line
      break; every line is trimmed before it is used, which removes that `\r` anyway. */
  function Lines(input: string): seq<string> {
    Split(input, "\n")
  }

  /** `solve_pt1`: the tokens summed over the machines that can be won; a line that
      throws while parsing makes the whole solver throw. */
  method SolvePt1(input: string) returns (r: Result<nat>)
    ensures Parse(Lines(input)).Err? ==> r == Err(Parse(Lines(input)).message)
    ensures Parse(Lines(input)).Ok? ==> r == Ok(TotalTokens(Parse(Lines(input)).value))
  {
    var parsed := ParseInput(Lines(input));
    if parsed.Err? {
      return Err(parsed.message);
    }
    var machines := parsed.value;
    var total := 0;
    var i := 0;
    while i < |machines|
      invariant 0 <= i <= |machines|
      invariant total == TotalTokens(machines[..i])
    {
      assert machines[..i + 1][..i] == machines[..i];
      var tokens := FindMinimumTokens(machines[i]);
      if tokens.Some? {
        total := total + tokens.value;
      }
      i := i + 1;
    }
    assert machines[..i] == machines;
    r := Ok(total);
  }

  const Offset: int := 10000000000000

  function Shifted(v: Option<int>): Option<int> {
    if v.Some? then Some(v.value + Offset) else None
  }

  /** The machine with 10^13 added to both prize coordinates (NaN stays NaN). */
  function Far(m: Machine): (f: Machine)
    ensures Defined(f) <==> Defined(m)
    ensures f.buttonA == m.buttonA && f.buttonB == m.buttonB
  {
    m.(prize := Vec(Shifted(m.prize.x), Shifted(m.prize.y)))
  }

  predicate AllDefined(ms: seq<Machine>) {
    forall i :: 0 <= i < |ms| ==> Defined(ms[i])
  }

  /** The part 2 total: the tokens summed over the far machines that can be won. */
  function FarTotal(ms: seq<Machine>): nat {
    if ms == [] then 0 else FarTotal(ms[..|ms| - 1]) + TokensOrZero(Cheapest(Far(ms[|ms| - 1])))
  }

  /** `solve_pt2`: the BigInt search over every far machine; the first machine with a
      NaN coordinate makes the BigInt conversion throw. */
  method SolvePt2(input: string) returns (r: Result<nat>)
    ensures Parse(Lines(input)).Err? ==> r == Err(Parse(Lines(input)).message)
    ensures Parse(Lines(input)).Ok? && !AllDefined(Parse(Lines(input)).value)
      ==> r == Err("RangeError")
    ensures Parse(Lines(input)).Ok? && AllDefined(Parse(Lines(input)).value)
      ==> r == Ok(FarTotal(Parse(Lines(input)).value))
  {
    var parsed := ParseInput(Lines(input));
    if parsed.Err? {
      return Err(parsed.message);
    }
    var machines := parsed.value;
    var total := 0;
    var i := 0;
    while i < |machines|
      invariant 0 <= i <= |machines|
      invariant AllDefined(machines[..i])
      invariant total == FarTotal(machines[..i])
    {
      assert machines[..i + 1][..i] == machines[..i];
      var modified := Far(machines[i]);
      var tokens := FindMinimumTokensWithBigInt(modified);
      if tokens.Err? {
        return Err(tokens.message);
      }
      if tokens.value.Some? {
        total := total + tokens.value.value;
      }
      i := i + 1;
    }
    assert machines[..i] == machines;
    r := Ok(total);
  }

  lemma MulAtMost(a: int, x: int, bound: int)
    requires 0 <= a <= MaxPresses && x <= bound && bound >= 0
    ensures x * a <= MaxPresses * bound
  {
    if x >= 0 {
      assert x * a <= bound * a;
    } else {
      assert x * a <= 0;
    }
  }

  /** With button offsets below 5·10^10 along x and a prize at a non-negative x, 100
      presses of each button fall short of a prize moved 10^13 away. */
  lemma FarUnreachable(m: Machine)
    requires Defined(m)
    requires m.buttonA.x.value < 50000000000 && m.buttonB.x.value < 50000000000
    requires m.prize.x.value >= 0
    ensures Cheapest(Far(m)).None?
  {
    var f := Far(m);
    CheapestMeaning(f);
    var ax, bx := m.buttonA.x.value, m.buttonB.x.value;
    forall a, b | InRange(a, b) ensures !Hits(f, a, b) {
      MulAtMost(a, ax, 49999999999);
      MulAtMost(b, bx, 49999999999);
      assert ax * a + bx * b < f.prize.x.value;
    }
  }

  /** On such machines part 2 finds no machine that can be won and totals 0. */
  lemma {:induction false} FarTotalZero(ms: seq<Machine>)
    requires AllDefined(ms)
    requires forall i :: 0 <= i < |ms| ==>
      ms[i].buttonA.x.value < 50000000000 && ms[i].buttonB.x.value < 50000000000
      && ms[i].prize.x.value >= 0
    ensures FarTotal(ms) == 0
  {
    if ms != [] {
      var k := |ms| - 1;
      FarUnreachable(ms[k]);
      FarTotalZero(ms[..k]);
    }
  }
}
