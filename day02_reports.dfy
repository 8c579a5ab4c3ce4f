/** Day 2 of 2024: is a report (a list of levels) safe, and can it be made safe by
    dropping one level? Two independent solvers: node_runner/src/solved/index.day2.ts
    (one loop tracking the direction of the first step) and
    solved_work_Day2/02_PUZZLE_SOLUTION/index.ts (separate monotonicity and difference
    checks). Reports are given already split into numbers. */
module Day02Reports {
  import opened Wrappers

  function Abs(x: int): nat { if x < 0 then -x else x }

  /** Step `i` (from level i-1 to level i) changes the level by 1 to 3. */
  predicate StepOk(s: seq<int>, i: int)
    requires 1 <= i < |s|
  {
    s[i] - s[i - 1] != 0 && Abs(s[i] - s[i - 1]) <= 3
  }

  /** Step `i` goes up. */
  predicate Rising(s: seq<int>, i: int)
    requires 1 <= i < |s|
  {
    s[i] - s[i - 1] > 0
  }

  /** The rule of `isValidSequence`: at most one level, or every step changes the level
      by 1 to 3 in the direction of the first step. */
  predicate ValidSequence(s: seq<int>) {
    |s| <= 1 || forall i :: 1 <= i < |s| ==> StepOk(s, i) && Rising(s, i) == Rising(s, 1)
  }

  /** `isValidSequence`: `increasing` is `null` until the first step fixes it. */
  method IsValidSequence(s: seq<int>) returns (b: bool)
    ensures b <==> ValidSequence(s)
  {
    if |s| <= 1 {
      return true;
    }
    var increasing: Option<bool> := None;
    for i := 1 to |s|
      invariant increasing == None <==> i == 1
      invariant forall j :: 1 <= j < i ==> StepOk(s, j) && Rising(s, j) == Rising(s, 1)
      invariant increasing.Some? ==> increasing.value == Rising(s, 1)
    {
      var diff := s[i] - s[i - 1];
      if diff == 0 || Abs(diff) > 3 {
        assert !StepOk(s, i);
        return false;
      }
      if increasing == None {
        increasing := Some(diff > 0);
      } else if (diff > 0) != increasing.value {
        assert Rising(s, i) != Rising(s, 1);
        return false;
      }
    }
    return true;
  }

  /** `[...sequence.slice(0, i), ...sequence.slice(i + 1)]`. */
  function Removed(s: seq<int>, i: int): (r: seq<int>)
    requires 0 <= i < |s|
    ensures |r| == |s| - 1
    ensures forall j :: 0 <= j < |r| ==> r[j] == if j < i then s[j] else s[j + 1]
  {
    s[..i] + s[i + 1..]
  }

  /** Valid as it is, or after dropping one level. */
  predicate Repairable(s: seq<int>) {
    ValidSequence(s) || exists i :: 0 <= i < |s| && ValidSequence(Removed(s, i))
  }

  /** `canBeMadeValidWithOneOrMoreRemoval`: the loop returns at the first removal that
      works, so its closing `validRemovalCount === 1` only ever sees a count of 0. */
  method CanBeMadeValid(s: seq<int>) returns (b: bool)
    ensures b <==> Repairable(s)
  {
    var valid := IsValidSequence(s);
    if valid {
      return true;
    }
    var validRemovalCount := 0;
    for i := 0 to |s|
      invariant validRemovalCount == 0
      invariant forall j :: 0 <= j < i ==> !ValidSequence(Removed(s, j))
    {
      var newSequence := s[..i] + s[i + 1..];
      assert newSequence == Removed(s, i);
      var ok := IsValidSequence(newSequence);
      if ok {
        validRemovalCount := validRemovalCount + 1;
      }
      if validRemovalCount > 0 {
        return true;
      }
    }
    return validRemovalCount == 1;
  }

  // ---------------------------------------------------------------- the second solver

  predicate StrictlyIncreasing(s: seq<int>) {
    forall i :: 1 <= i < |s| ==> s[i] > s[i - 1]
  }

  predicate StrictlyDecreasing(s: seq<int>) {
    forall i :: 1 <= i < |s| ==> s[i] < s[i - 1]
  }

  predicate ValidDifferences(s: seq<int>) {
    forall i :: 1 <= i < |s| ==> 1 <= Abs(s[i] - s[i - 1]) <= 3
  }

  /** `isStrictlyIncreasing`: false at the first step that does not go up. */
  method IsStrictlyIncreasing(s: seq<int>) returns (b: bool)
    ensures b <==> StrictlyIncreasing(s)
  {
    var i := 1;
    while i < |s|
      invariant 1 <= i && forall j :: 1 <= j < i && j < |s| ==> s[j] > s[j - 1]
    {
      if s[i] <= s[i - 1] {
        return false;
      }
      i := i + 1;
    }
    return true;
  }

  /** `isStrictlyDecreasing`: false at the first step that does not go down. */
  method IsStrictlyDecreasing(s: seq<int>) returns (b: bool)
    ensures b <==> StrictlyDecreasing(s)
  {
    var i := 1;
    while i < |s|
      invariant 1 <= i && forall j :: 1 <= j < i && j < |s| ==> s[j] < s[j - 1]
    {
      if s[i] >= s[i - 1] {
        return false;
      }
      i := i + 1;
    }
    return true;
  }

  /** `hasValidDifferences`: false at the first step whose size is outside 1..3. */
  method HasValidDifferences(s: seq<int>) returns (b: bool)
    ensures b <==> ValidDifferences(s)
  {
    var i := 1;
    while i < |s|
      invariant 1 <= i && forall j :: 1 <= j < i && j < |s| ==> 1 <= Abs(s[j] - s[j - 1]) <= 3
    {
      var diff := Abs(s[i] - s[i - 1]);
      if diff < 1 || diff > 3 {
        return false;
      }
      i := i + 1;
    }
    return true;
  }

  /** The rule of `isReportSafe`. */
  predicate ReportSafe(s: seq<int>) {
    |s| <= 1 || ((StrictlyIncreasing(s) || StrictlyDecreasing(s)) && ValidDifferences(s))
  }

  /** `isReportSafe`: a single level is safe; otherwise strictly monotone with steps of
      1 to 3. */
  method IsReportSafe(s: seq<int>) returns (b: bool)
    ensures b <==> ReportSafe(s)
  {
    if |s| <= 1 {
      return true;
    }
    var up := IsStrictlyIncreasing(s);
    var down := IsStrictlyDecreasing(s);
    var diffs := HasValidDifferences(s);
    b := (up || down) && diffs;
  }

  /** Safe as it is, or after dropping one level. */
  predicate Fixable(s: seq<int>) {
    ReportSafe(s) || exists i :: 0 <= i < |s| && ReportSafe(Removed(s, i))
  }

  /** `canBeMadeSafe`: true at the first removal that leaves a safe report. */
  method CanBeMadeSafe(s: seq<int>) returns (b: bool)
    ensures b <==> Fixable(s)
  {
    var safe := IsReportSafe(s);
    if safe {
      return true;
    }
    for i := 0 to |s|
      invariant forall j :: 0 <= j < i ==> !ReportSafe(Removed(s, j))
    {
      var modified := s[..i] + s[i + 1..];
      assert modified == Removed(s, i);
      var ok := IsReportSafe(modified);
      if ok {
        return true;
      }
    }
    return false;
  }

  /** The two solvers' rules agree on every report: the first step's direction held by
      every step is the same as strict monotonicity, and a non-zero step of size at most 3
      is one of size 1 to 3. */
  lemma SameRule(s: seq<int>)
    ensures ValidSequence(s) <==> ReportSafe(s)
  {
    if |s| > 1 {
      if ValidSequence(s) {
        if Rising(s, 1) {
          assert StrictlyIncreasing(s) by {
            forall i | 1 <= i < |s| ensures s[i] > s[i - 1] {
              assert Rising(s, i);
            }
          }
        } else {
          assert StrictlyDecreasing(s) by {
            forall i | 1 <= i < |s| ensures s[i] < s[i - 1] {
              assert StepOk(s, i) && !Rising(s, i);
            }
          }
        }
        assert ValidDifferences(s) by {
          forall i | 1 <= i < |s| ensures 1 <= Abs(s[i] - s[i - 1]) <= 3 {
            assert StepOk(s, i);
          }
        }
      }
      if ReportSafe(s) {
        forall i | 1 <= i < |s| ensures StepOk(s, i) && Rising(s, i) == Rising(s, 1) {
          assert 1 <= Abs(s[i] - s[i - 1]) <= 3;
        }
      }
    }
  }

  /** Hence "repairable" means the same in both solvers. */
  lemma SameRepairRule(s: seq<int>)
    ensures Repairable(s) <==> Fixable(s)
  {
    SameRule(s);
    if Repairable(s) && !ValidSequence(s) {
      var i :| 0 <= i < |s| && ValidSequence(Removed(s, i));
      SameRule(Removed(s, i));
    }
    if Fixable(s) && !ReportSafe(s) {
      var i :| 0 <= i < |s| && ReportSafe(Removed(s, i));
      SameRule(Removed(s, i));
    }
  }

  // ---------------------------------------------------------------- counting

  /** The number of reports satisfying `p`. */
  function CountWhere(reports: seq<seq<int>>, p: seq<int> -> bool): (n: nat)
    ensures n <= |reports|
  {
    if reports == [] then 0
    else CountWhere(reports[..|reports| - 1], p) + if p(reports[|reports| - 1]) then 1 else 0
  }

  /** Counting by a weaker condition never gives less. */
  lemma {:induction false} CountMonotone(reports: seq<seq<int>>, p: seq<int> -> bool, q: seq<int> -> bool)
    requires forall r :: p(r) ==> q(r)
    ensures CountWhere(reports, p) <= CountWhere(reports, q)
  {
    if reports != [] {
      CountMonotone(reports[..|reports| - 1], p, q);
    }
  }

  /** Counting by two conditions that agree on every report gives the same number. */
  lemma {:induction false} CountSame(reports: seq<seq<int>>, p: seq<int> -> bool, q: seq<int> -> bool)
    requires forall r :: p(r) == q(r)
    ensures CountWhere(reports, p) == CountWhere(reports, q)
  {
    if reports != [] {
      CountSame(reports[..|reports| - 1], p, q);
    }
  }

  /** The counting loop of `solve_pt1` (node_runner): reports passing `isValidSequence`. */
  method SolvePart1(reports: seq<seq<int>>) returns (validCount: nat)
    ensures validCount == CountWhere(reports, ValidSequence)
  {
    validCount := 0;
    for i := 0 to |reports|
      invariant validCount == CountWhere(reports[..i], ValidSequence)
    {
      assert reports[..i + 1][..i] == reports[..i];
      var ok := IsValidSequence(reports[i]);
      if ok {
        validCount := validCount + 1;
      }
    }
    assert reports[..|reports|] == reports;
  }

  /** The counting loop of `solve_pt2` (node_runner): reports that are repairable. */
  method SolvePart2(reports: seq<seq<int>>) returns (validCount: nat)
    ensures validCount == CountWhere(reports, Repairable)
  {
    validCount := 0;
    for i := 0 to |reports|
      invariant validCount == CountWhere(reports[..i], Repairable)
    {
      assert reports[..i + 1][..i] == reports[..i];
      var ok := CanBeMadeValid(reports[i]);
      if ok {
        validCount := validCount + 1;
      }
    }
    assert reports[..|reports|] == reports;
  }

  /** Every valid report is repairable, so part 2 never counts fewer reports. */
  lemma PartTwoAtLeastPartOne(reports: seq<seq<int>>)
    ensures CountWhere(reports, ValidSequence) <= CountWhere(reports, Repairable)
  {
    CountMonotone(reports, ValidSequence, Repairable);
  }

  /** The second solver's `filter(isReportSafe).length` and `filter(canBeMadeSafe).length`
      are the first solver's counts. */
  lemma SolversAgree(reports: seq<seq<int>>)
    ensures CountWhere(reports, ReportSafe) == CountWhere(reports, ValidSequence)
    ensures CountWhere(reports, Fixable) == CountWhere(reports, Repairable)
  {
    forall s ensures ReportSafe(s) == ValidSequence(s) {
      SameRule(s);
    }
    forall s ensures Fixable(s) == Repairable(s) {
      SameRepairRule(s);
    }
    CountSame(reports, ReportSafe, ValidSequence);
    CountSame(reports, Fixable, Repairable);
  }
}
