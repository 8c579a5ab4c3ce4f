/** Day 3 as the node runner solves it: part 1 sums the products of every match of the
    pattern; part 2 first copies the memory character by character, dropping each `do()`
    and `don't()` and every character read while a `don't()` is in force, and then sums
    the matches of the copy. */
module Day03Scan {
  import opened Wrappers
  import opened JsText
  import opened Day03Pattern

  // ---------------------------------------------------------------------------------
  // The loop over the matches

  /** The `for (const match of matches)` loop: every match passes the length check, and
      the sum of the `parseInt` products is the sum over the list of matches. */
  method SumMatches(data: string) returns (sum: nat)
    ensures sum == Total(MatchesFrom(data, 0))
  {
    var matches := MatchesFrom(data, 0);
    sum := 0;
    for i := 0 to |matches|
      invariant sum + Total(matches[i..]) == Total(matches)
    {
      var m := matches[i];
      assert matches[i..][1..] == matches[i + 1..];
      if |m.num1| <= 3 && |m.num2| <= 3 {
        ParseIntOfDigits(m.num1);
        ParseIntOfDigits(m.num2);
        var a := ParseInt(m.num1).value;
        var b := ParseInt(m.num2).value;
        sum := sum + a * b;
      }
    }
  }

  /** `solve_pt1` on the memory it would read from `input.txt`. */
  method SolvePt1(data: string) returns (sum: nat)
    ensures sum == SumFrom(data, 0)
  {
    sum := SumMatches(data);
    SumFromTotal(data, 0);
  }

  // ---------------------------------------------------------------------------------
  // The toggle filter

  /** What the filter of `solve_pt2` keeps of `s` when `counting` is the state before its
      first character: `do()` and `don't()` are dropped and set the state, any other
      character is kept when counting. */
  function Filtered(s: string, counting: bool): (r: string)
    ensures |r| <= |s|
    decreases |s|
  {
    if s == [] then []
    else if OccursAt(s, "do()", 0) then Filtered(s[4..], true)
    else if OccursAt(s, "don't()", 0) then Filtered(s[7..], false)
    else (if counting then [s[0]] else []) + Filtered(s[1..], counting)
  }

  /** One step of the filter at index p, read on the whole text. */
  lemma FilteredStep(data: string, p: nat, counting: bool)
    requires p < |data|
    ensures OccursAt(data, "do()", p) ==>
      Filtered(data[p..], counting) == Filtered(data[p + 4..], true)
    ensures !OccursAt(data, "do()", p) && OccursAt(data, "don't()", p) ==>
      Filtered(data[p..], counting) == Filtered(data[p + 7..], false)
    ensures !OccursAt(data, "do()", p) && !OccursAt(data, "don't()", p) ==>
      Filtered(data[p..], counting) ==
        (if counting then [data[p]] else []) + Filtered(data[p + 1..], counting)
  {
    var t := data[p..];
    OccursShift(data, "do()", p, 0);
    OccursShift(data, "don't()", p, 0);
    if OccursAt(data, "do()", p) {
      assert t[4..] == data[p + 4..];
    } else if OccursAt(data, "don't()", p) {
      assert t[7..] == data[p + 7..];
    } else {
      assert t[1..] == data[p + 1..];
    }
  }

  lemma AppendAssociates(a: string, b: string, c: string)
    ensures a + (b + c) == (a + b) + c
  {
  }

  /** The `while (position < data.length)` loop of `solve_pt2`: `data.startsWith(w,
      position)` is an occurrence of `w` at `position`. */
  method FilterToggles(data: string) returns (filtered: string)
    ensures filtered == Filtered(data, true)
  {
    filtered := "";
    var counting := true;
    var position := 0;
    while position < |data|
      invariant position <= |data|
      invariant filtered + Filtered(data[position..], counting) == Filtered(data, true)
      decreases |data| - position
    {
      FilteredStep(data, position, counting);
      ghost var before := Filtered(data[position..], counting);
      ghost var prev := filtered;
      if OccursAt(data, "do()", position) {
        counting := true;
        position := position + 4;
        assert Filtered(data[position..], counting) == before;
        continue;
      }
      if OccursAt(data, "don't()", position) {
        counting := false;
        position := position + 7;
        assert Filtered(data[position..], counting) == before;
        continue;
      }
      ghost var after := Filtered(data[position + 1..], counting);
      ghost var kept := if counting then [data[position]] else [];
      assert before == kept + after;
      if counting {
        filtered := filtered + [data[position]];
      }
      assert filtered == prev + kept;
      AppendAssociates(prev, kept, after);
      position := position + 1;
    }
  }

  /** `solve_pt2`: the sum over the matches of the filtered memory. */
  method SolvePt2(data: string) returns (sum: nat)
    ensures sum == SumFrom(Filtered(data, true), 0)
  {
    var filtered := FilterToggles(data);
    sum := SumMatches(filtered);
    SumFromTotal(filtered, 0);
  }

  // ---------------------------------------------------------------------------------
  // What the filter keeps

  /** A word that occurs nowhere in a text occurs nowhere in its suffixes. */
  lemma AbsentInSuffix(s: string, w: string, k: nat)
    requires k <= |s| && forall i :: !OccursAt(s, w, i)
    ensures forall i :: !OccursAt(s[k..], w, i)
  {
    forall i ensures !OccursAt(s[k..], w, i) {
      OccursShift(s, w, k, i);
    }
  }

  /** After a `don't()`, nothing is kept until a `do()` comes. */
  lemma {:induction false} FilteredOffUntilDo(s: string)
    requires forall i :: !OccursAt(s, "do()", i)
    ensures Filtered(s, false) == []
    decreases |s|
  {
    if s != [] {
      assert !OccursAt(s, "do()", 0);
      if OccursAt(s, "don't()", 0) {
        AbsentInSuffix(s, "do()", 7);
        FilteredOffUntilDo(s[7..]);
      } else {
        AbsentInSuffix(s, "do()", 1);
        FilteredOffUntilDo(s[1..]);
      }
    }
  }

  /** With neither toggle in the memory, the filter keeps it whole. */
  lemma {:induction false} FilteredNoToggles(s: string)
    requires forall i :: !OccursAt(s, "do()", i) && !OccursAt(s, "don't()", i)
    ensures Filtered(s, true) == s
    decreases |s|
  {
    if s != [] {
      assert !OccursAt(s, "do()", 0) && !OccursAt(s, "don't()", 0);
      AbsentInSuffix(s, "do()", 1);
      AbsentInSuffix(s, "don't()", 1);
      FilteredNoToggles(s[1..]);
    }
  }

  /** With neither toggle in the memory, part 2 gives the answer of part 1. */
  lemma SameAnswerWithoutToggles(s: string)
    requires forall i :: !OccursAt(s, "do()", i) && !OccursAt(s, "don't()", i)
    ensures SumFrom(Filtered(s, true), 0) == SumFrom(s, 0)
  {
    FilteredNoToggles(s);
  }

  /** A toggle is dropped whatever the state before it: `do()` switches counting on and
      `don't()` switches it off. */
  lemma TogglesDropped(rest: string, counting: bool)
    ensures Filtered("do()" + rest, counting) == Filtered(rest, true)
    ensures Filtered("don't()" + rest, counting) == Filtered(rest, false)
  {
    var d := "do()" + rest;
    var n := "don't()" + rest;
    assert d[..4] == "do()" && d[4..] == rest;
    assert n[..4] == "don'" && n[..7] == "don't()" && n[7..] == rest;
  }

  // ---------------------------------------------------------------------------------
  // A toggle inside a match

  /** Characters that cannot start `mul(` contribute nothing to the scan. */
  lemma {:induction false} SumFromSkip(s: string, i: nat, n: nat)
    requires i + n <= |s|
    requires forall p :: i <= p < i + n ==> s[p] != 'm'
    ensures SumFrom(s, i) == SumFrom(s, i + n)
    decreases n
  {
    if n > 0 {
      assert MulAt(s, i).None?;
      SumFromSkip(s, i + 1, n - 1);
    }
  }

  /** Neither toggle holds an `m`, so the scan passes over it unchanged. */
  lemma ToggleHasNoMatch(s: string, i: nat)
    requires OccursAt(s, "do()", i) || OccursAt(s, "don't()", i)
    ensures OccursAt(s, "do()", i) ==> SumFrom(s, i) == SumFrom(s, i + 4)
    ensures OccursAt(s, "don't()", i) ==> SumFrom(s, i) == SumFrom(s, i + 7)
  {
    if OccursAt(s, "do()", i) {
      forall p | i <= p < i + 4 ensures s[p] != 'm' {
        assert s[p] == s[i..i + 4][p - i];
      }
      SumFromSkip(s, i, 4);
    }
    if OccursAt(s, "don't()", i) {
      forall p | i <= p < i + 7 ensures s[p] != 'm' {
        assert s[p] == s[i..i + 7][p - i];
      }
      SumFromSkip(s, i, 7);
    }
  }

  /** A character other than `d` starts no toggle. */
  lemma NotToggleAt(s: string, p: nat)
    requires p < |s| && s[p] != 'd'
    ensures !OccursAt(s, "do()", p) && !OccursAt(s, "don't()", p)
  {
    if p + 4 <= |s| {
      assert s[p..p + 4][0] == s[p];
    }
    if p + 7 <= |s| {
      assert s[p..p + 7][0] == s[p];
    }
  }

  /** A stretch in which no toggle starts is copied whole when counting and dropped
      whole otherwise. */
  lemma {:induction false} FilteredRun(s: string, p: nat, q: nat, counting: bool)
    requires p <= q <= |s|
    requires forall j :: p <= j < q ==> !OccursAt(s, "do()", j) && !OccursAt(s, "don't()", j)
    ensures Filtered(s[p..], counting) ==
      (if counting then s[p..q] else []) + Filtered(s[q..], counting)
    decreases q - p
  {
    if p < q {
      FilteredStep(s, p, counting);
      FilteredRun(s, p + 1, q, counting);
      var tail := Filtered(s[q..], counting);
      if counting {
        assert s[p..q] == [s[p]] + s[p + 1..q];
        AppendAssociates([s[p]], s[p + 1..q], tail);
      }
    }
  }

  lemma GluedText(s: string)
    requires s == "mul(2,do()3)"
    ensures Filtered(s, true) == "mul(2,3)"
  {
    forall j | 0 <= j < 6 || 10 <= j < 12
      ensures !OccursAt(s, "do()", j) && !OccursAt(s, "don't()", j)
    {
      NotToggleAt(s, j);
    }
    assert s[12..] == [];
    FilteredRun(s, 10, 12, true);
    assert s[6..10] == "do()";
    FilteredStep(s, 6, true);
    FilteredRun(s, 0, 6, true);
    assert s[0..] == s;
    assert s[0..6] + s[10..12] == "mul(2,3)";
  }

  lemma GluedSum()
    ensures SumFrom("mul(2,3)", 0) == 6
  {
    var g := "mul(2,3)";
    assert g == MulText("2", "3");
    MulAtFinds(g, 0, "2", "3");
    assert SumFrom(g, 0) == Product(Mul(0, "2", "3")) + SumFrom(g, 8);
  }

  lemma CutSum()
    ensures SumFrom("mul(2,do()3)", 0) == 0
  {
    var s := "mul(2,do()3)";
    assert DigitsFrom(s, 6) == 0;
    assert MulAt(s, 0).None?;
    SumFromSkip(s, 1, 11);
  }

  /** `mul(2,do()3)` holds no match, yet the filter glues `mul(2,` to `3)`: the node
      runner's part 2 counts 6 where part 1 counts 0. */
  lemma GluedMatch()
    ensures Filtered("mul(2,do()3)", true) == "mul(2,3)"
    ensures SumFrom(Filtered("mul(2,do()3)", true), 0) == 6
    ensures SumFrom("mul(2,do()3)", 0) == 0
  {
    GluedText("mul(2,do()3)");
    GluedSum();
    CutSum();
  }

  /** The sum part 2 asks for, read on the memory itself: the products of its matches,
      counted while enabled, where each `do()` enables and each `don't()` disables the
      matches after it. */
  function EnabledFrom(s: string, i: nat, enabled: bool): nat
    decreases |s| - i
  {
    if i >= |s| then 0
    else if OccursAt(s, "do()", i) then EnabledFrom(s, i + 4, true)
    else if OccursAt(s, "don't()", i) then EnabledFrom(s, i + 7, false)
    else match MulAt(s, i)
      case Some(m) => (if enabled then Product(m) else 0) + EnabledFrom(s, End(m), enabled)
      case None => EnabledFrom(s, i + 1, enabled)
  }

  /** Disabling only removes matches: part 2 never exceeds part 1. */
  lemma {:induction false} EnabledAtMostAll(s: string, i: nat, enabled: bool)
    ensures EnabledFrom(s, i, enabled) <= SumFrom(s, i)
    decreases |s| - i
  {
    if i < |s| {
      if OccursAt(s, "do()", i) {
        ToggleHasNoMatch(s, i);
        EnabledAtMostAll(s, i + 4, true);
      } else if OccursAt(s, "don't()", i) {
        ToggleHasNoMatch(s, i);
        EnabledAtMostAll(s, i + 7, false);
      } else if MulAt(s, i).Some? {
        EnabledAtMostAll(s, End(MulAt(s, i).value), enabled);
      } else {
        EnabledAtMostAll(s, i + 1, enabled);
      }
    }
  }

  /** With no `don't()`, every match counts: part 2 is part 1. */
  lemma {:induction false} EnabledWithoutDont(s: string, i: nat)
    requires forall p :: !OccursAt(s, "don't()", p)
    ensures EnabledFrom(s, i, true) == SumFrom(s, i)
    decreases |s| - i
  {
    if i < |s| {
      assert !OccursAt(s, "don't()", i);
      if OccursAt(s, "do()", i) {
        ToggleHasNoMatch(s, i);
        EnabledWithoutDont(s, i + 4);
      } else if MulAt(s, i).Some? {
        EnabledWithoutDont(s, End(MulAt(s, i).value));
      } else {
        EnabledWithoutDont(s, i + 1);
      }
    }
  }
}
