/** Day 17 (node_runner/src/solved/index.day17.ts): a three-register machine whose program
    is a list of 3-bit opcodes each followed by an operand. */
module Day17Computer {
  import opened Wrappers
  import opened JsText

  datatype Registers = Registers(a: nat, b: nat, c: nat)

  /** A snapshot of `ProgramState` without the program: `ip` is `None` once a jump has
      read the missing operand after a final opcode 3 (the JavaScript `undefined`). */
  datatype State = State(regs: Registers, ip: Option<nat>, outputs: seq<nat>)

  /** The loop condition `state.ip < state.program.length`; `undefined < n` is false. */
  predicate Running(program: seq<nat>, s: State) {
    s.ip.Some? && s.ip.value < |program|
  }

  function Pow2(n: nat): (p: nat)
    ensures p >= 1
  {
    if n == 0 then 1 else 2 * Pow2(n - 1)
  }

  /** JavaScript `^` on the naturals the model keeps: bit i of the result is set when
      exactly one operand has bit i set. */
  function Xor(x: nat, y: nat): nat
    decreases x + y
  {
    if x == 0 && y == 0 then 0
    else 2 * Xor(x / 2, y / 2) + (if x % 2 == y % 2 then 0 else 1)
  }

  /** XOR with the same value twice gives back the original, so opcode 1 with the same
      operand twice restores B. */
  lemma {:induction false} XorInvolution(x: nat, y: nat)
    ensures Xor(Xor(x, y), y) == x
    decreases x + y
  {
    if x == 0 && y == 0 {
    } else {
      XorInvolution(x / 2, y / 2);
      var z := Xor(x, y);
      assert z / 2 == Xor(x / 2, y / 2) && z % 2 == (if x % 2 == y % 2 then 0 else 1);
    }
  }

  /** XOR of two values below 2^k stays below 2^k: B stays a k-bit value under opcodes 1
      and 4 when its inputs are. */
  lemma {:induction false} XorBound(x: nat, y: nat, k: nat)
    requires x < Pow2(k) && y < Pow2(k)
    ensures Xor(x, y) < Pow2(k)
    decreases k
  {
    if k > 0 && !(x == 0 && y == 0) {
      XorBound(x / 2, y / 2, k - 1);
    }
  }

  /** `getOperandValue`: a missing operand compares false against every case and reads
      as 0. */
  function Combo(operand: Option<nat>, regs: Registers): (v: nat)
    ensures operand.Some? && operand.value <= 3 ==> v == operand.value
    ensures operand.None? || operand.value > 6 ==> v == 0
  {
    if operand.None? then 0
    else if operand.value <= 3 then operand.value
    else if operand.value == 4 then regs.a
    else if operand.value == 5 then regs.b
    else if operand.value == 6 then regs.c
    else 0
  }

  /** A literal operand reads the same whatever the registers hold, and operands 4, 5, 6
      read A, B and C. */
  lemma ComboSources(operand: nat, r1: Registers, r2: Registers)
    ensures operand <= 3 || operand > 6 ==> Combo(Some(operand), r1) == Combo(Some(operand), r2)
    ensures operand == 4 ==> Combo(Some(operand), r1) == r1.a
    ensures operand == 5 ==> Combo(Some(operand), r1) == r1.b
    ensures operand == 6 ==> Combo(Some(operand), r1) == r1.c
  {
  }

  /** `Math.floor(a / Math.pow(2, k))`, taken as `k` halvings; `ShrFloor` shows it is the
      floor of the quotient. */
  function Shr(a: nat, k: nat): nat
    decreases k
  {
    if k == 0 then a else Shr(a / 2, k - 1)
  }

  /** The operand slot after the opcode at `ip`. */
  function Operand(program: seq<nat>, ip: nat): Option<nat> {
    if ip + 1 < |program| then Some(program[ip + 1]) else None
  }

  /** `executeInstruction` as a function of the state. An opcode outside 0..7 matches no
      case and leaves the state as it is. */
  function Step(program: seq<nat>, s: State): State {
    if !Running(program, s) then s
    else
      var ip := s.ip.value;
      var operand := Operand(program, ip);
      var literal := if operand.Some? then operand.value else 0;
      var combo := Combo(operand, s.regs);
      var next := Some(ip + 2);
      match program[ip]
      case 0 => State(s.regs.(a := Shr(s.regs.a, combo)), next, s.outputs)
      case 1 => State(s.regs.(b := Xor(s.regs.b, literal)), next, s.outputs)
      case 2 => State(s.regs.(b := combo % 8), next, s.outputs)
      case 3 => State(s.regs, if s.regs.a != 0 then operand else next, s.outputs)
      case 4 => State(s.regs.(b := Xor(s.regs.b, s.regs.c)), next, s.outputs)
      case 5 => State(s.regs, next, s.outputs + [combo % 8])
      case 6 => State(s.regs.(b := Shr(s.regs.a, combo)), next, s.outputs)
      case 7 => State(s.regs.(c := Shr(s.regs.a, combo)), next, s.outputs)
      case _ => s
  }

  /** Every output value is in 0..7. */
  predicate SmallOutputs(outs: seq<nat>) {
    forall i :: 0 <= i < |outs| ==> outs[i] < 8
  }

  /** One step keeps the outputs so far and appends at most one value, which is in 0..7;
      only opcode 5 appends. */
  lemma StepOutputs(program: seq<nat>, s: State)
    ensures var t := Step(program, s);
      |s.outputs| <= |t.outputs| <= |s.outputs| + 1 && t.outputs[..|s.outputs|] == s.outputs
      && (SmallOutputs(s.outputs) ==> SmallOutputs(t.outputs))
      && (|t.outputs| > |s.outputs| ==> Running(program, s) && program[s.ip.value] == 5)
  {
  }

  /** Control flow: opcode 3 jumps to its operand when A is non-zero, the other seven
      opcodes advance by 2, and an unknown opcode leaves the machine where it is. */
  lemma StepIp(program: seq<nat>, s: State)
    requires Running(program, s)
    ensures var ip := s.ip.value; var t := Step(program, s);
      (program[ip] == 3 && s.regs.a != 0 ==> t.ip == Operand(program, ip))
      && (program[ip] <= 7 && !(program[ip] == 3 && s.regs.a != 0) ==> t.ip == Some(ip + 2))
      && (program[ip] > 7 ==> t == s)
  {
  }

  /** Doubling the second factor doubles the product. */
  lemma DoubleFactor(x: nat, q: nat)
    ensures x * (2 * q) == 2 * (x * q)
  {
  }

  /** Halving never grows a value. */
  lemma {:induction false} ShrAtMost(a: nat, k: nat)
    ensures Shr(a, k) <= a
    decreases k
  {
    if k > 0 {
      ShrAtMost(a / 2, k - 1);
    }
  }

  /** ⌊a / 2^k⌋ is the v with v·2^k ≤ a < (v + 1)·2^k, and it is at most a. */
  lemma {:induction false} ShrFloor(a: nat, k: nat)
    ensures var v := Shr(a, k); var p := Pow2(k); v * p <= a < (v + 1) * p && v <= a
    decreases k
  {
    ShrAtMost(a, k);
    if k > 0 {
      var h := a / 2;
      var v := Shr(h, k - 1);
      var q := Pow2(k - 1);
      ShrFloor(h, k - 1);
      assert Shr(a, k) == v;
      assert Pow2(k) == 2 * q;
      var lo := v * q;
      var hi := (v + 1) * q;
      assert lo <= h < hi;
      DoubleFactor(v, q);
      DoubleFactor(v + 1, q);
      assert v * Pow2(k) == 2 * lo;
      assert (v + 1) * Pow2(k) == 2 * hi;
    }
  }

  /** Opcodes 0, 6 and 7 write ⌊A / 2^combo⌋ into A, B and C; A never grows. */
  lemma StepDivides(program: seq<nat>, s: State)
    requires Running(program, s) && program[s.ip.value] in {0, 6, 7}
    ensures var ip := s.ip.value; var t := Step(program, s);
      var k := Combo(Operand(program, ip), s.regs);
      var v := if program[ip] == 0 then t.regs.a else if program[ip] == 6 then t.regs.b else t.regs.c;
      v * Pow2(k) <= s.regs.a < (v + 1) * Pow2(k) && t.regs.a <= s.regs.a
  {
    ShrFloor(s.regs.a, Combo(Operand(program, s.ip.value), s.regs));
  }

  /** `runProgram` with a step bound: it steps while the machine runs and `fuel` lasts;
      `halted` says the loop left because `ip` ran past the program. */
  function Run(program: seq<nat>, s: State, fuel: nat): (r: (State, bool))
    ensures r.1 <==> !Running(program, r.0)
    decreases fuel
  {
    if !Running(program, s) then (s, true)
    else if fuel == 0 then (s, false)
    else Run(program, Step(program, s), fuel - 1)
  }

  /** Outputs only ever grow, and every value appended is in 0..7. */
  lemma {:induction false} RunOutputs(program: seq<nat>, s: State, fuel: nat)
    ensures var t := Run(program, s, fuel).0;
      |s.outputs| <= |t.outputs| && t.outputs[..|s.outputs|] == s.outputs
      && (SmallOutputs(s.outputs) ==> SmallOutputs(t.outputs))
    decreases fuel
  {
    if Running(program, s) && fuel > 0 {
      var s' := Step(program, s);
      StepOutputs(program, s);
      RunOutputs(program, s', fuel - 1);
      var t := Run(program, s', fuel - 1).0;
      assert t.outputs[..|s'.outputs|][..|s.outputs|] == t.outputs[..|s.outputs|];
    }
  }

  /** Once halted, more fuel changes nothing: the result does not depend on the bound. */
  lemma {:induction false} RunMoreFuel(program: seq<nat>, s: State, fuel: nat, more: nat)
    requires Run(program, s, fuel).1
    ensures Run(program, s, fuel + more) == Run(program, s, fuel)
    decreases fuel
  {
    if Running(program, s) && fuel > 0 {
      RunMoreFuel(program, Step(program, s), fuel - 1, more);
    }
  }

  /** The decimal texts of the outputs, in order. */
  function Decimals(outs: seq<nat>): seq<string> {
    seq(|outs|, i requires 0 <= i < |outs| => ToDecimal(outs[i]))
  }

  /** `outputs.join(',')`. */
  function OutputText(outs: seq<nat>): string {
    Join(Decimals(outs), ",")
  }

  /** Reads back a joined text of one-digit outputs: every other character. */
  function ReadOutputs(text: string): seq<nat>
    decreases |text|
  {
    if text == [] then []
    else (if IsDigit(text[0]) then [DigitValue(text[0])] else [0]) + ReadOutputs(if |text| >= 2 then text[2..] else [])
  }

  /** The joined output loses nothing: values in 0..7 are single digits, so the text
      reads back as the output list. */
  lemma {:induction false} OutputTextRoundTrip(outs: seq<nat>)
    requires SmallOutputs(outs)
    ensures ReadOutputs(OutputText(outs)) == outs
  {
    if outs != [] {
      var d := ToDecimal(outs[0]);
      assert d == ['0' + outs[0] as char];
      assert Decimals(outs)[1..] == Decimals(outs[1..]);
      OutputTextRoundTrip(outs[1..]);
      if |outs| == 1 {
        assert OutputText(outs) == d;
      } else {
        assert OutputText(outs) == d + "," + OutputText(outs[1..]);
        assert (d + "," + OutputText(outs[1..]))[2..] == OutputText(outs[1..]);
      }
    }
  }

  /** `ProgramState`: the program is fixed, the registers, `ip` and outputs change. */
  class Machine {
    var regs: Registers
    var ip: Option<nat>
    var outputs: seq<nat>
    const program: seq<nat>

    function Snapshot(): State
      reads this
    {
      State(regs, ip, outputs)
    }

    ghost predicate Valid()
      reads this
    {
      SmallOutputs(outputs)
    }

    /** A fresh machine: `ip` 0 and no output. */
    constructor(registers: Registers, program: seq<nat>)
      ensures Valid() && this.program == program
      ensures Snapshot() == State(registers, Some(0), [])
    {
      regs := registers;
      ip := Some(0);
      outputs := [];
      this.program := program;
    }

    /** `executeInstruction`. */
    method ExecuteInstruction()
      requires Valid()
      modifies this
      ensures Valid() && Snapshot() == Step(program, old(Snapshot()))
    {
      StepOutputs(program, Snapshot());
      if !(ip.Some? && ip.value < |program|) {
        return;
      }
      var at := ip.value;
      var operand := Operand(program, at);
      var combo := Combo(operand, regs);
      match program[at]
      case 0 =>
        regs := regs.(a := Shr(regs.a, combo));
        ip := Some(at + 2);
      case 1 =>
        regs := regs.(b := Xor(regs.b, if operand.Some? then operand.value else 0));
        ip := Some(at + 2);
      case 2 =>
        regs := regs.(b := combo % 8);
        ip := Some(at + 2);
      case 3 =>
        if regs.a != 0 {
          ip := operand;
        } else {
          ip := Some(at + 2);
        }
      case 4 =>
        regs := regs.(b := Xor(regs.b, regs.c));
        ip := Some(at + 2);
      case 5 =>
        outputs := outputs + [combo % 8];
        ip := Some(at + 2);
      case 6 =>
        regs := regs.(b := Shr(regs.a, combo));
        ip := Some(at + 2);
      case 7 =>
        regs := regs.(c := Shr(regs.a, combo));
        ip := Some(at + 2);
      case _ =>
    }

    /** `runProgram`, bounded by `fuel` steps: the final state is `Run`'s, and the text
        is the outputs joined with commas. */
    method RunProgram(fuel: nat) returns (text: string, halted: bool)
      requires Valid()
      modifies this
      ensures Valid() && (Snapshot(), halted) == Run(program, old(Snapshot()), fuel)
      ensures text == OutputText(outputs)
    {
      var steps := 0;
      while ip.Some? && ip.value < |program| && steps < fuel
        invariant 0 <= steps <= fuel && Valid()
        invariant Run(program, old(Snapshot()), fuel) == Run(program, Snapshot(), fuel - steps)
        decreases fuel - steps
      {
        ExecuteInstruction();
        steps := steps + 1;
      }
      halted := !(ip.Some? && ip.value < |program|);
      text := OutputText(outputs);
    }
  }

  /** The puzzle input after `parseInput`. */
  datatype Input = Input(regs: Registers, program: seq<nat>)

  const TypeError := "TypeError: Cannot read properties of undefined"
  /** A register that `parseInt` reads as NaN or as a negative number, or a program entry
      that is not a plain decimal: values the natural-number machine does not represent. */
  const NotNatural := "value outside the natural-number model"

  /** `parseInt(line.split(': ')[1])` as a natural number, when it is one. */
  function RegisterField(line: string): Option<nat> {
    var parts := Split(line, ": ");
    if |parts| < 2 then None
    else match ParseInt(parts[1])
      case Some(v) => if v >= 0 then Some(v) else None
      case None => None
  }

  /** `Number(part)` for a program entry: surrounding whitespace is ignored and the empty
      text is 0; only plain decimals are kept. */
  function ProgramEntry(part: string): Option<nat> {
    var t := Trim(part);
    if AllDigits(t) then Some(DecimalValue(t)) else None
  }

  function ProgramEntries(parts: seq<string>): (r: Option<seq<nat>>)
    ensures r.Some? ==> (|r.value| == |parts|
      && forall i :: 0 <= i < |parts| ==> ProgramEntry(parts[i]) == Some(r.value[i]))
    ensures r.None? ==> exists i :: 0 <= i < |parts| && ProgramEntry(parts[i]).None?
  {
    if parts == [] then Some([])
    else match (ProgramEntry(parts[0]), ProgramEntries(parts[1..]))
      case (Some(v), Some(rest)) => Some([v] + rest)
      case (None, _) => None
      case (_, None) => None
  }

  /** `parseInput`: registers on lines 0-2 after `": "`, the program on line 4. A missing
      line, or a program line without `": "`, makes JavaScript read a property of
      `undefined` and throw. */
  function ParseInput(input: string): (r: Result<Input>)
    ensures var lines := Split(Trim(input), "\n");
      r == Err(TypeError) <==> |lines| < 5 || |Split(lines[4], ": ")| < 2
    ensures r.Ok? ==> var lines := Split(Trim(input), "\n");
      Some(r.value.regs.a) == RegisterField(lines[0]) && Some(r.value.regs.b) == RegisterField(lines[1])
      && Some(r.value.regs.c) == RegisterField(lines[2])
      && |r.value.program| == |Split(Split(lines[4], ": ")[1], ",")|
  {
    var lines := Split(Trim(input), "\n");
    if |lines| < 5 then Err(TypeError)
    else
      var field := Split(lines[4], ": ");
      if |field| < 2 then Err(TypeError)
      else
        var a, b, c := RegisterField(lines[0]), RegisterField(lines[1]), RegisterField(lines[2]);
        var program := ProgramEntries(Split(field[1], ","));
        if a.None? || b.None? || c.None? || program.None? then Err(NotNatural)
        else Ok(Input(Registers(a.value, b.value, c.value), program.value))
  }

  /** The message when the step bound ends the run before the program halts. */
  const OutOfFuel := "step bound reached"

  /** `solve_pt1`: run the parsed program from `ip` 0 with no output; the result is the
      joined output of `Run` when the program halts within `fuel` steps. */
  method SolvePart1(input: string, fuel: nat) returns (r: Result<string>)
    ensures ParseInput(input).Err? ==> r == Err(ParseInput(input).message)
    ensures ParseInput(input).Ok? ==>
      var inp := ParseInput(input).value;
      var run := Run(inp.program, State(inp.regs, Some(0), []), fuel);
      r == (if run.1 then Ok(OutputText(run.0.outputs)) else Err(OutOfFuel))
  {
    var parsed := ParseInput(input);
    if parsed.Err? {
      return Err(parsed.message);
    }
    var machine := new Machine(parsed.value.regs, parsed.value.program);
    var text, halted := machine.RunProgram(fuel);
    if halted {
      r := Ok(text);
    } else {
      r := Err(OutOfFuel);
    }
  }
}
