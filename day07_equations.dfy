/** Day 7 of 2024 (node_runner/src/solved/index.day7.ts): can the numbers of an equation,
    combined left to right by `+`, `*` and (in part 2) decimal concatenation `||`, give its
    test value? Numbers are JavaScript values read with `parseInt`; `None` stands for NaN
    (and for `undefined`), which every operator propagates and which equals nothing. */
module Day07Equations {
  import opened Wrappers
  import opened JsText

  datatype Op = Add | Mul | Concat

  datatype Equation = Equation(testValue: Option<int>, numbers: seq<Option<int>>)

  /** The operators of part 1 and of part 2, in the order `generate` tries them. */
  const Part1Ops: seq<Op> := [Add, Mul]
  const Part2Ops: seq<Op> := [Add, Mul, Concat]

  // ---------------------------------------------------------------- parsing

  /** One line `testValue: n1 n2 …`; a line without `:` makes `numbersStr` undefined, and
      its `trim()` throws. */
  function ParseLine(line: string): (r: Result<Equation>)
    ensures r.Ok? ==> |r.value.numbers| >= 1
    ensures r.Err? <==> |Split(line, ":")| < 2
  {
    var parts := Split(line, ":");
    if |parts| < 2 then Err("TypeError")
    else
      var fields := Split(Trim(parts[1]), " ");
      Ok(Equation(ParseInt(Trim(parts[0])), seq(|fields|, i requires 0 <= i < |fields| => ParseInt(fields[i]))))
  }

  /** Every line has a `:`. */
  predicate AllParse(lines: seq<string>) {
    forall k :: 0 <= k < |lines| ==> ParseLine(lines[k]).Ok?
  }

  /** The `map(line => …)` of `parseInput`: one equation per line, or the `TypeError` of
      the first line without `:`. */
  function ParseLines(lines: seq<string>): (r: Result<seq<Equation>>)
    ensures r.Err? <==> !AllParse(lines)
    ensures r.Ok? ==> |r.value| == |lines|
    ensures r.Ok? ==> forall k :: 0 <= k < |lines| ==> Ok(r.value[k]) == ParseLine(lines[k]) && |r.value[k].numbers| >= 1
  {
    if AllParse(lines) then Ok(seq(|lines|, k requires 0 <= k < |lines| => ParseLine(lines[k]).value))
    else Err("TypeError")
  }

  /** `parseInput`: one equation per line of the trimmed input. */
  function ParseInput(input: string): Result<seq<Equation>> {
    ParseLines(Split(Trim(input), "\n"))
  }

  // ---------------------------------------------------------------- evaluation

  /** `String(x)`: an optional minus sign, then the decimal digits. */
  function IntText(x: int): string {
    if x < 0 then "-" + ToDecimal(-x) else ToDecimal(x)
  }

  /** `parseInt(`${a}${b}`)`. */
  function JsConcat(a: int, b: int): Option<int> {
    ParseInt(IntText(a) + IntText(b))
  }

  /** For non-negative numbers, `||` shifts the left number by the digit count of the
      right one: `12 || 345 = 12345`. */
  lemma ConcatDigits(a: nat, b: nat)
    ensures JsConcat(a, b) == Some(a * Pow10(|ToDecimal(b)|) + b)
  {
    DecimalValueAppend(ToDecimal(a), ToDecimal(b));
    ParseIntOfDigits(ToDecimal(a) + ToDecimal(b));
  }

  /** One step of the loop of `evaluateExpression`; NaN absorbs everything. */
  function Apply(acc: Option<int>, op: Op, x: Option<int>): (r: Option<int>)
    ensures r.Some? ==> acc.Some? && x.Some?
    ensures acc.Some? && x.Some? && op == Add ==> r == Some(acc.value + x.value)
    ensures acc.Some? && x.Some? && op == Mul ==> r == Some(acc.value * x.value)
  {
    if acc.None? || x.None? then None
    else match op
      case Add => Some(acc.value + x.value)
      case Mul => Some(acc.value * x.value)
      case Concat => JsConcat(acc.value, x.value)
  }

  /** `numbers[i]`, `undefined` past the end. */
  function Operand(numbers: seq<Option<int>>, i: nat): Option<int> {
    if i < |numbers| then numbers[i] else None
  }

  /** The value of `numbers` combined by `ops`, strictly left to right. */
  function Eval(numbers: seq<Option<int>>, ops: seq<Op>): Option<int>
    decreases |ops|
  {
    if ops == [] then Operand(numbers, 0)
    else Apply(Eval(numbers, ops[..|ops| - 1]), ops[|ops| - 1], Operand(numbers, |ops|))
  }

  /** `evaluateExpression`: `result` starts at `numbers[0]` and each operator folds in the
      next number. */
  method EvaluateExpression(numbers: seq<Option<int>>, operators: seq<Op>) returns (result: Option<int>)
    ensures result == Eval(numbers, operators)
  {
    result := Operand(numbers, 0);
    for i := 0 to |operators|
      invariant result == Eval(numbers, operators[..i])
    {
      assert operators[..i + 1][..i] == operators[..i];
      result := Apply(result, operators[i], Operand(numbers, i + 1));
    }
    assert operators[..|operators|] == operators;
  }

  predicate Defined(numbers: seq<Option<int>>) {
    forall i :: 0 <= i < |numbers| ==> numbers[i].Some?
  }

  function SumFirst(numbers: seq<Option<int>>, n: nat): int
    requires n <= |numbers| && Defined(numbers)
  {
    if n == 0 then 0 else SumFirst(numbers, n - 1) + numbers[n - 1].value
  }

  function ProductFirst(numbers: seq<Option<int>>, n: nat): int
    requires n <= |numbers| && Defined(numbers)
  {
    if n == 0 then 1 else ProductFirst(numbers, n - 1) * numbers[n - 1].value
  }

  /** With only `+`, the expression is the sum of the numbers it uses. */
  lemma {:induction false} EvalAdds(numbers: seq<Option<int>>, ops: seq<Op>)
    requires Defined(numbers) && |ops| < |numbers| && forall i :: 0 <= i < |ops| ==> ops[i] == Add
    ensures Eval(numbers, ops) == Some(SumFirst(numbers, |ops| + 1))
    decreases |ops|
  {
    if ops != [] {
      EvalAdds(numbers, ops[..|ops| - 1]);
    }
  }

  /** With only `*`, the expression is the product of the numbers it uses. */
  lemma {:induction false} EvalMuls(numbers: seq<Option<int>>, ops: seq<Op>)
    requires Defined(numbers) && |ops| < |numbers| && forall i :: 0 <= i < |ops| ==> ops[i] == Mul
    ensures Eval(numbers, ops) == Some(ProductFirst(numbers, |ops| + 1))
    decreases |ops|
  {
    if ops != [] {
      EvalMuls(numbers, ops[..|ops| - 1]);
    }
  }

  /** There is no precedence: `2 + 3 * 4` is `(2 + 3) * 4 = 20`. */
  lemma NoPrecedence()
    ensures Eval([Some(2), Some(3), Some(4)], [Add, Mul]) == Some(20)
  {
    assert [Add, Mul][..1] == [Add];
    assert Eval([Some(2), Some(3), Some(4)], [Add]) == Some(5);
  }

  /** A NaN anywhere among the numbers used makes the result NaN. */
  lemma {:induction false} NaNPropagates(numbers: seq<Option<int>>, ops: seq<Op>, j: nat)
    requires j <= |ops| && j < |numbers| && numbers[j].None?
    ensures Eval(numbers, ops) == None
    decreases |ops|
  {
    if |ops| > j {
      NaNPropagates(numbers, ops[..|ops| - 1], j);
    }
  }

  // ---------------------------------------------------------------- operator lists

  /** Every word in `ws` with `op` in front. */
  function Prefixed(op: Op, ws: seq<seq<Op>>): (r: seq<seq<Op>>)
    ensures |r| == |ws|
  {
    seq(|ws|, i requires 0 <= i < |ws| => [op] + ws[i])
  }

  /** Every word in `ws` with each of `ops` in front, grouped by the operator. */
  function AllPrefixed(ops: seq<Op>, ws: seq<seq<Op>>): seq<seq<Op>>
    decreases |ops|
  {
    if ops == [] then [] else AllPrefixed(ops[..|ops| - 1], ws) + Prefixed(ops[|ops| - 1], ws)
  }

  /** The words of length `n` over `ops`, in the order the backtracking search emits them:
      the first position varies slowest. */
  function Words(ops: seq<Op>, n: nat): seq<seq<Op>> {
    if n == 0 then [[]] else AllPrefixed(ops, Words(ops, n - 1))
  }

  /** `p` in front of every word of `ws`. */
  function Prepend(p: seq<Op>, ws: seq<seq<Op>>): (r: seq<seq<Op>>)
    ensures |r| == |ws|
  {
    seq(|ws|, i requires 0 <= i < |ws| => p + ws[i])
  }

  predicate Over(w: seq<Op>, ops: seq<Op>) {
    forall i :: 0 <= i < |w| ==> w[i] in ops
  }

  function Pow(b: nat, n: nat): nat {
    if n == 0 then 1 else b * Pow(b, n - 1)
  }

  /** A word is in `AllPrefixed(ops, ws)` exactly when its head is one of `ops` and its
      tail is in `ws`. */
  lemma {:induction false} AllPrefixedMembers(ops: seq<Op>, ws: seq<seq<Op>>, x: seq<Op>)
    ensures x in AllPrefixed(ops, ws) <==> x != [] && x[0] in ops && x[1..] in ws
    decreases |ops|
  {
    if ops != [] {
      var init, last := ops[..|ops| - 1], ops[|ops| - 1];
      AllPrefixedMembers(init, ws, x);
      assert x in Prefixed(last, ws) <==> x != [] && x[0] == last && x[1..] in ws by {
        if x in Prefixed(last, ws) {
          var i :| 0 <= i < |ws| && Prefixed(last, ws)[i] == x;
          assert x[1..] == ws[i];
        }
        if x != [] && x[0] == last && x[1..] in ws {
          var i :| 0 <= i < |ws| && ws[i] == x[1..];
          assert Prefixed(last, ws)[i] == x;
        }
      }
      assert ops == init + [last];
    }
  }

  lemma MulPred(a: nat, b: nat)
    requires a > 0
    ensures a * b == (a - 1) * b + b
  {
  }

  lemma {:induction false} AllPrefixedCount(ops: seq<Op>, ws: seq<seq<Op>>)
    ensures |AllPrefixed(ops, ws)| == |ops| * |ws|
    decreases |ops|
  {
    if ops != [] {
      AllPrefixedCount(ops[..|ops| - 1], ws);
      MulPred(|ops|, |ws|);
    }
  }

  /** The generated lists are exactly the words of length `n` over the operators. */
  lemma {:induction false} WordsMembers(ops: seq<Op>, n: nat, w: seq<Op>)
    ensures w in Words(ops, n) <==> |w| == n && Over(w, ops)
    decreases n
  {
    if n == 0 {
      assert w in Words(ops, n) <==> w == [];
    } else {
      AllPrefixedMembers(ops, Words(ops, n - 1), w);
      if w != [] {
        WordsMembers(ops, n - 1, w[1..]);
        assert Over(w, ops) <==> w[0] in ops && Over(w[1..], ops) by {
          if w[0] in ops && Over(w[1..], ops) {
            forall i | 0 <= i < |w| ensures w[i] in ops {
              if i > 0 { assert w[i] == w[1..][i - 1]; }
            }
          }
        }
      }
    }
  }

  /** There are |ops|^n of them. */
  lemma {:induction false} WordsCount(ops: seq<Op>, n: nat)
    ensures |Words(ops, n)| == Pow(|ops|, n)
    decreases n
  {
    if n > 0 {
      WordsCount(ops, n - 1);
      AllPrefixedCount(ops, Words(ops, n - 1));
    }
  }

  lemma PrependConcat(p: seq<Op>, a: seq<seq<Op>>, b: seq<seq<Op>>)
    ensures Prepend(p, a + b) == Prepend(p, a) + Prepend(p, b)
  {
    var l, r := Prepend(p, a + b), Prepend(p, a) + Prepend(p, b);
    forall i | 0 <= i < |l| ensures l[i] == r[i] {
      if i < |a| { assert (a + b)[i] == a[i]; } else { assert (a + b)[i] == b[i - |a|]; }
    }
  }

  lemma PrependStep(p: seq<Op>, op: Op, ws: seq<seq<Op>>)
    ensures Prepend(p + [op], ws) == Prepend(p, Prefixed(op, ws))
  {
    var l, r := Prepend(p + [op], ws), Prepend(p, Prefixed(op, ws));
    forall i | 0 <= i < |ws| ensures l[i] == r[i] {
      assert (p + [op]) + ws[i] == p + ([op] + ws[i]);
    }
  }

  /** The inner `generate` of `generateOperatorCombinationsPart1/2`: extend `current`
      with each operator in turn and recurse, recording every list that reached `length`
      (the shared `push`/`pop` buffer is the `current` parameter here). */
  method Generate(operators: seq<Op>, length: nat, current: seq<Op>) returns (combinations: seq<seq<Op>>)
    requires |current| <= length
    ensures combinations == Prepend(current, Words(operators, length - |current|))
    decreases length - |current|
  {
    if |current| == length {
      assert current + [] == current;
      assert Prepend(current, [[]]) == [current];
      return [current];
    }
    var rest := Words(operators, length - |current| - 1);
    combinations := [];
    for k := 0 to |operators|
      invariant combinations == Prepend(current, AllPrefixed(operators[..k], rest))
    {
      var more := Generate(operators, length, current + [operators[k]]);
      PrependStep(current, operators[k], rest);
      PrependConcat(current, AllPrefixed(operators[..k], rest), Prefixed(operators[k], rest));
      assert operators[..k + 1][..k] == operators[..k];
      combinations := combinations + more;
    }
    assert operators[..|operators|] == operators;
  }

  lemma PrependEmpty(ws: seq<seq<Op>>)
    ensures Prepend([], ws) == ws
  {
    assert forall i :: 0 <= i < |ws| ==> [] + ws[i] == ws[i];
  }

  /** `generateOperatorCombinationsPart1(length)`: the 2^length lists over `+`, `*`. */
  method GenerateOperatorCombinationsPart1(length: nat) returns (combinations: seq<seq<Op>>)
    ensures combinations == Words(Part1Ops, length) && |combinations| == Pow(2, length)
  {
    combinations := Generate(Part1Ops, length, []);
    PrependEmpty(Words(Part1Ops, length));
    WordsCount(Part1Ops, length);
  }

  /** `generateOperatorCombinationsPart2(length)`: the 3^length lists over `+`, `*`, `||`. */
  method GenerateOperatorCombinationsPart2(length: nat) returns (combinations: seq<seq<Op>>)
    ensures combinations == Words(Part2Ops, length) && |combinations| == Pow(3, length)
  {
    combinations := Generate(Part2Ops, length, []);
    PrependEmpty(Words(Part2Ops, length));
    WordsCount(Part2Ops, length);
  }

  // ---------------------------------------------------------------- validity

  /** `evaluateExpression(numbers, operators) === testValue`. */
  predicate Reaches(eq: Equation, ops: seq<Op>) {
    eq.testValue.Some? && Eval(eq.numbers, ops) == eq.testValue
  }

  /** `isValidEquation`: some listed operator list reaches the test value. */
  predicate IsValidEquation(eq: Equation, operatorCombinations: seq<seq<Op>>) {
    exists i :: 0 <= i < |operatorCombinations| && Reaches(eq, operatorCombinations[i])
  }

  /** Checking the generated lists is the same as asking for any operator list of the
      right length over the alphabet. */
  lemma ValidIffSolvable(eq: Equation, ops: seq<Op>)
    requires |eq.numbers| >= 1
    ensures IsValidEquation(eq, Words(ops, |eq.numbers| - 1))
      <==> exists w :: |w| == |eq.numbers| - 1 && Over(w, ops) && Reaches(eq, w)
  {
    var n := |eq.numbers| - 1;
    var ws := Words(ops, n);
    if IsValidEquation(eq, ws) {
      var i :| 0 <= i < |ws| && Reaches(eq, ws[i]);
      WordsMembers(ops, n, ws[i]);
      assert |ws[i]| == n && Over(ws[i], ops) && Reaches(eq, ws[i]);
    }
    if w :| |w| == n && Over(w, ops) && Reaches(eq, w) {
      WordsMembers(ops, n, w);
      var i :| 0 <= i < |ws| && ws[i] == w;
      assert Reaches(eq, ws[i]);
    }
  }

  /** Every equation part 1 accepts, part 2 accepts. */
  lemma Part1ValidIsPart2Valid(eq: Equation)
    requires |eq.numbers| >= 1 && IsValidEquation(eq, Words(Part1Ops, |eq.numbers| - 1))
    ensures IsValidEquation(eq, Words(Part2Ops, |eq.numbers| - 1))
  {
    ValidIffSolvable(eq, Part1Ops);
    ValidIffSolvable(eq, Part2Ops);
    var w :| |w| == |eq.numbers| - 1 && Over(w, Part1Ops) && Reaches(eq, w);
    assert Over(w, Part2Ops);
  }

  /** An equation whose test value or one of whose numbers is NaN is never valid. */
  lemma NaNNeverValid(eq: Equation, ops: seq<Op>, j: nat)
    requires |eq.numbers| >= 1 && j < |eq.numbers| && eq.numbers[j].None?
    ensures !IsValidEquation(eq, Words(ops, |eq.numbers| - 1))
  {
    var ws := Words(ops, |eq.numbers| - 1);
    forall i | 0 <= i < |ws| ensures !Reaches(eq, ws[i]) {
      WordsMembers(ops, |eq.numbers| - 1, ws[i]);
      NaNPropagates(eq.numbers, ws[i], j);
    }
  }

  // ---------------------------------------------------------------- solvers

  /** `filter(isValidEquation).reduce((sum, e) => sum + e.testValue, 0)`. */
  function SumValid(eqs: seq<Equation>, ops: seq<Op>): int
    requires forall k :: 0 <= k < |eqs| ==> |eqs[k].numbers| >= 1
  {
    if eqs == [] then 0
    else
      var last := eqs[|eqs| - 1];
      SumValid(eqs[..|eqs| - 1], ops)
        + if IsValidEquation(last, Words(ops, |last.numbers| - 1)) then last.testValue.value else 0
  }

  /** `solvePart1` / `solvePart2`: the sum of the test values of the valid equations, or
      the error `parseInput` throws. */
  function Solve(input: string, ops: seq<Op>): (r: Result<int>)
    ensures r.Err? <==> ParseInput(input).Err?
  {
    match ParseInput(input)
    case Err(e) => Err(e)
    case Ok(eqs) => Ok(SumValid(eqs, ops))
  }

  /** When every test value is non-negative, part 2's sum is at least part 1's. */
  lemma {:induction false} SumValidGrows(eqs: seq<Equation>)
    requires forall k :: 0 <= k < |eqs| ==> |eqs[k].numbers| >= 1
    requires forall k :: 0 <= k < |eqs| && eqs[k].testValue.Some? ==> eqs[k].testValue.value >= 0
    ensures SumValid(eqs, Part1Ops) <= SumValid(eqs, Part2Ops)
  {
    if eqs != [] {
      var last := eqs[|eqs| - 1];
      SumValidGrows(eqs[..|eqs| - 1]);
      if IsValidEquation(last, Words(Part1Ops, |last.numbers| - 1)) {
        Part1ValidIsPart2Valid(last);
      }
    }
  }
}
