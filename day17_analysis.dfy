/** Day 17 part 2 scoring (solved_work_Day17/02_PUZZLE_SOLUTION/index.ts): run the same
    machine from a candidate value of A for a bounded number of steps and compare its
    output with the program itself, position by position. */
module Day17Analysis {
  import opened Wrappers
  import opened Day17Computer

  /** `maxSteps`. */
  const MaxSteps: nat := 1000

  /** `OutputAnalysis`; a padded output position holds `undefined`, here `None`. */
  datatype OutputAnalysis = OutputAnalysis(value: nat, outputs: seq<Option<nat>>, matchCount: nat, matchPositions: seq<bool>)

  /** The machine `analyzeOutput` starts: A is the candidate, B and C are 0. */
  function Start(value: nat): State {
    State(Registers(value, 0, 0), Some(0), [])
  }

  /** The outputs of a run, padded with `undefined` up to `n` positions. */
  function Padded(outs: seq<nat>, n: nat): (r: seq<Option<nat>>)
    ensures |r| == if |outs| < n then n else |outs|
    ensures forall i :: 0 <= i < |r| ==> (r[i].Some? <==> i < |outs|) && (i < |outs| ==> r[i] == Some(outs[i]))
  {
    seq(|outs|, i requires 0 <= i < |outs| => Some(outs[i])) + seq(if |outs| < n then n - |outs| else 0, _ => None)
  }

  /** The padding loop of `analyzeOutput`: push `undefined` until there are `n` outputs. */
  method Pad(outs: seq<nat>, n: nat) returns (outputs: seq<Option<nat>>)
    ensures outputs == Padded(outs, n)
  {
    outputs := seq(|outs|, i requires 0 <= i < |outs| => Some(outs[i]));
    while |outputs| < n
      invariant |outs| <= |outputs| && (|outputs| == |outs| || |outputs| <= n)
      invariant outputs == Padded(outs, |outputs|)
      decreases n - |outputs|
    {
      outputs := outputs + [None];
    }
  }

  /** `filter(x => x).length`. */
  function CountTrue(s: seq<bool>): (n: nat)
    ensures n <= |s|
  {
    if s == [] then 0 else CountTrue(s[..|s| - 1]) + (if s[|s| - 1] then 1 else 0)
  }

  /** Entries from `n` on are all false, so at most `n` entries count. */
  lemma {:induction false} CountTrueBound(s: seq<bool>, n: nat)
    requires forall i :: n <= i < |s| ==> !s[i]
    ensures CountTrue(s) <= n
  {
    if |s| > n {
      assert !s[|s| - 1];
      CountTrueBound(s[..|s| - 1], n);
    }
  }

  /** `matchCount` is the number of positions where the run printed the program's own
      value, so it is at most the program length. */
  lemma MatchCountBound(outputs: seq<Option<nat>>, program: seq<nat>)
    ensures var m := Matches(outputs, program);
      |m| == |outputs| && CountTrue(m) <= |program|
      && forall i :: 0 <= i < |m| ==> (m[i] <==> outputs[i].Some? && i < |program| && outputs[i].value == program[i])
  {
    CountTrueBound(Matches(outputs, program), |program|);
  }

  /** The `matchPositions` mapping. */
  function Matches(outputs: seq<Option<nat>>, program: seq<nat>): seq<bool> {
    seq(|outputs|, i requires 0 <= i < |outputs| => outputs[i].Some? && i < |program| && outputs[i].value == program[i])
  }

  /** `analyzeOutput` (without its debug logging): at most 1000 steps of the machine, so
      it always ends; the outputs are those of the bounded run, padded to the program
      length; each match position says the output there equals the program entry there,
      and the count of matches is at most the program length. */
  method AnalyzeOutput(value: nat, program: seq<nat>) returns (r: OutputAnalysis)
    ensures var run := Run(program, Start(value), MaxSteps).0;
      r.value == value && r.outputs == Padded(run.outputs, |program|)
      && SmallOutputs(run.outputs)
    ensures |r.outputs| >= |program| && |r.matchPositions| == |r.outputs|
    ensures forall i :: 0 <= i < |r.matchPositions| ==>
      (r.matchPositions[i] <==> r.outputs[i].Some? && i < |program| && r.outputs[i].value == program[i])
    ensures r.matchCount == CountTrue(r.matchPositions) && r.matchCount <= |program|
  {
    var machine := new Machine(Registers(value, 0, 0), program);
    var steps := 0;
    while machine.ip.Some? && machine.ip.value < |program| && steps < MaxSteps
      invariant 0 <= steps <= MaxSteps && machine.Valid() && machine.program == program
      invariant Run(program, Start(value), MaxSteps) == Run(program, machine.Snapshot(), MaxSteps - steps)
      decreases MaxSteps - steps
    {
      machine.ExecuteInstruction();
      steps := steps + 1;
    }
    assert Run(program, machine.Snapshot(), MaxSteps - steps).0 == machine.Snapshot();
    var outputs := Pad(machine.outputs, |program|);
    var matchPositions := Matches(outputs, program);
    MatchCountBound(outputs, program);
    r := OutputAnalysis(value, outputs, CountTrue(matchPositions), matchPositions);
  }
}
