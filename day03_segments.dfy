/** Day 3 as the worked solution solves it: part 1 takes the leftmost match of the rest of
    the memory, adds its product and goes on after it; part 2 cuts the memory at each
    `do()` or `don't()`, keeps what it reads while counting and sums the matches of the
    kept text joined together. */
module Day03Segments {
  import opened Wrappers
  import opened JsText
  import opened Day03Pattern
  import Day03Scan

  /** `s.substring(start)` for a start that is not negative: empty past the end. */
  function SubstringFrom(s: string, start: nat): string {
    if start <= |s| then s[start..] else []
  }

  /** `s.substring(from, to)` for `0 <= from <= to`: both ends are clamped to the
      length. */
  function Substring(s: string, from: nat, to: nat): string
    requires from <= to
  {
    var a := if from <= |s| then from else |s|;
    var b := if to <= |s| then to else |s|;
    s[a..b]
  }

  // ---------------------------------------------------------------------------------
  // Part 1

  /** Taking the leftmost match at index p, the sum of the scan is its product plus the
      sum of the text after it. */
  lemma LeftmostMatch(s: string, p: nat)
    requires MulAt(s, p).Some?
    requires forall q :: 0 <= q < p ==> MulAt(s, q).None?
    ensures End(MulAt(s, p).value) <= |s|
    ensures SumFrom(s, 0) == Product(MulAt(s, p).value) + SumFrom(s[End(MulAt(s, p).value)..], 0)
  {
    var m := MulAt(s, p).value;
    var e := End(m);
    assert p < e <= |s|;
    SumFromNoMatch(s, 0, p);
    assert SumFrom(s, p) == Product(m) + SumFrom(s, e);
    SumFromSuffix(s, e);
  }

  /** `solve_pt1`: `remaining.match(mulPattern)` gives the leftmost match and its index;
      the search goes on from `match.index + fullMatch.length`. */
  method SolvePt1(input: string) returns (sum: nat)
    ensures sum == SumFrom(input, 0)
  {
    sum := 0;
    var remaining := input;
    while |remaining| > 0
      invariant sum + SumFrom(remaining, 0) == SumFrom(input, 0)
      decreases |remaining|
    {
      var found := FirstMatchAt(remaining, 0);
      if found.None? {
        SumFromNoMatch(remaining, 0, |remaining|);
        break;
      }
      var index := found.value;
      var m := MulAt(remaining, index).value;
      LeftmostMatch(remaining, index);
      if |m.num1| <= 3 && |m.num2| <= 3 {
        ParseIntOfDigits(m.num1);
        ParseIntOfDigits(m.num2);
        sum := sum + ParseInt(m.num1).value * ParseInt(m.num2).value;
      }
      var next := index + Length(m);
      assert next == End(m) && 0 < next <= |remaining|;
      assert SubstringFrom(remaining, next) == remaining[next..];
      remaining := SubstringFrom(remaining, next);
    }
  }

  // ---------------------------------------------------------------------------------
  // Part 2

  /** Where the next `do()` or `don't()` of `r` starts, as `solve_pt2` picks it from the two
      `indexOf` results: the one that is not -1, or the smaller of the two; -1 when there
      is neither. */
  function NextToggle(r: string): (n: int)
    ensures n == -1 <==> forall i :: !OccursAt(r, "do()", i) && !OccursAt(r, "don't()", i)
    ensures n != -1 ==> 0 <= n && (OccursAt(r, "do()", n) || OccursAt(r, "don't()", n))
    ensures forall i :: 0 <= i && (n == -1 || i < n) ==>
      !OccursAt(r, "do()", i) && !OccursAt(r, "don't()", i)
  {
    var doIndex := IndexOf(r, "do()", 0);
    var dontIndex := IndexOf(r, "don't()", 0);
    if doIndex == -1 && dontIndex == -1 then -1
    else if doIndex == -1 then dontIndex
    else if dontIndex == -1 then doIndex
    else if doIndex <= dontIndex then doIndex
    else dontIndex
  }

  /** The text the loop of `solve_pt2` collects from `r` when `counting` is its state
      before `r`: the text up to the next toggle when counting, then what it collects
      from five characters past the toggle on, in the state the comparison of the
      five-character slice with `do()` gives. */
  function Collected(r: string, counting: bool): (c: string)
    ensures |c| <= |r|
    decreases |r|
  {
    if r == [] then []
    else
      var next := NextToggle(r);
      if next == -1 then (if counting then r else [])
      else
        (if counting then r[..next] else []) +
        Collected(SubstringFrom(r, next + 5), Substring(r, next, next + 5) == "do()")
  }

  lemma Regroup(a: string, b: string, c: string, d: string)
    ensures (a + b) + (c + d) == (a + (b + c)) + d
  {
  }

  /** One turn of the loop of `solve_pt2` on a text with a toggle. */
  lemma CollectedStep(r: string, counting: bool)
    requires NextToggle(r) != -1
    ensures Collected(r, counting) ==
      (if counting then r[..NextToggle(r)] else []) +
      Collected(SubstringFrom(r, NextToggle(r) + 5),
                Substring(r, NextToggle(r), NextToggle(r) + 5) == "do()")
  {
  }

  /** When counting stops, a non-empty current segment is saved and a new one begun; the
      text the segments and the current one make together stays the same. */
  method CloseSegment(segments: seq<string>, current: string, wasCounting: bool, counting: bool)
    returns (segments': seq<string>, current': string)
    ensures Join(segments', "") + current' == Join(segments, "") + current
    ensures wasCounting && !counting && current != "" ==>
      segments' == segments + [current] && current' == ""
    ensures !(wasCounting && !counting && current != "") ==>
      segments' == segments && current' == current
  {
    segments', current' := segments, current;
    if wasCounting && !counting && current != "" {
      JoinAppendEmpty(segments, current);
      segments' := segments + [current];
      current' := "";
      assert Join(segments', "") + current' == Join(segments', "");
    }
  }

  /** Lines 47-64 of `solve_pt2`, for the toggle at `nextToggle`: the text before it
      joins the current segment when counting, the slice comparison sets the new state,
      the current segment is saved when counting stops, and the search goes on five
      characters past the toggle. What has been collected together with what the rest
      will collect stays the same. */
  method PassToggle(remaining: string, nextToggle: nat, counting: bool,
                    countableSegments: seq<string>, currentSegment: string)
    returns (remaining': string, counting': bool,
             countableSegments': seq<string>, currentSegment': string)
    requires NextToggle(remaining) == nextToggle
    ensures Join(countableSegments', "") + currentSegment' + Collected(remaining', counting') ==
            Join(countableSegments, "") + currentSegment + Collected(remaining, counting)
    ensures |remaining'| < |remaining|
  {
    var current := currentSegment;
    if counting {
      current := current + Substring(remaining, 0, nextToggle);
    }
    ghost var kept := if counting then remaining[..nextToggle] else [];
    assert current == currentSegment + kept;
    var nextInstruction := Substring(remaining, nextToggle, nextToggle + 5);
    counting' := nextInstruction == "do()";
    remaining' := SubstringFrom(remaining, nextToggle + 5);
    CollectedStep(remaining, counting);
    Regroup(Join(countableSegments, ""), currentSegment, kept, Collected(remaining', counting'));
    countableSegments', currentSegment' :=
      CloseSegment(countableSegments, current, counting, counting');
  }

  /** The loop of `solve_pt2` and the push of the last segment: joined with no
      separator, the segments are the collected text. */
  method CollectSegments(input: string) returns (countableSegments: seq<string>)
    ensures Join(countableSegments, "") == Collected(input, true)
  {
    countableSegments := [];
    var counting := true;
    var currentSegment := "";
    var remaining := input;
    while |remaining| > 0
      invariant Join(countableSegments, "") + currentSegment + Collected(remaining, counting) ==
                Collected(input, true)
      decreases |remaining|
    {
      ghost var joined := Join(countableSegments, "");
      ghost var before := currentSegment;
      var doIndex := IndexOf(remaining, "do()", 0);
      var dontIndex := IndexOf(remaining, "don't()", 0);
      if doIndex == -1 && dontIndex == -1 {
        if counting {
          currentSegment := currentSegment + remaining;
        }
        ghost var tail := Collected(remaining, counting);
        assert tail == if counting then remaining else [];
        assert currentSegment == before + tail;
        Day03Scan.AppendAssociates(joined, before, tail);
        assert Join(countableSegments, "") + currentSegment == Collected(input, true);
        break;
      }
      var nextToggle := if doIndex == -1 then dontIndex
                        else if dontIndex == -1 then doIndex
                        else if doIndex <= dontIndex then doIndex
                        else dontIndex;
      assert nextToggle == NextToggle(remaining);
      assert |remaining| > nextToggle >= 0;
      remaining, counting, countableSegments, currentSegment :=
        PassToggle(remaining, nextToggle, counting, countableSegments, currentSegment);
    }
    if remaining == [] {
      assert Join(countableSegments, "") + currentSegment + [] ==
             Join(countableSegments, "") + currentSegment;
    }
    assert Join(countableSegments, "") + currentSegment == Collected(input, true);
    if currentSegment != "" {
      JoinAppendEmpty(countableSegments, currentSegment);
      countableSegments := countableSegments + [currentSegment];
    } else {
      assert Join(countableSegments, "") + currentSegment == Join(countableSegments, "");
    }
  }

  /** `solve_pt2`: the segments kept while counting, joined with no separator, go to
      `solve_pt1`. */
  method SolvePt2(input: string) returns (sum: nat)
    ensures sum == SumFrom(Collected(input, true), 0)
  {
    var countableSegments := CollectSegments(input);
    sum := SolvePt1(Join(countableSegments, ""));
  }

  // ---------------------------------------------------------------------------------
  // What part 2 keeps

  /** The slice of five characters from a toggle equals `do()` only when the toggle is a
      `do()` that ends the text: any toggle with a character after it turns counting
      off. */
  lemma SliceIsDo(r: string, n: nat)
    requires OccursAt(r, "do()", n) || OccursAt(r, "don't()", n)
    ensures Substring(r, n, n + 5) == "do()" <==> OccursAt(r, "do()", n) && n + 4 == |r|
  {
    var slice := Substring(r, n, n + 5);
    if n + 5 <= |r| {
      assert |slice| == 5;
    } else if OccursAt(r, "don't()", n) {
      assert false;
    } else {
      assert slice == r[n..n + 4];
    }
  }

  /** Once counting is off it never comes back on with more text to read: nothing more
      is collected. */
  lemma {:induction false} CollectedOff(r: string)
    ensures Collected(r, false) == []
    decreases |r|
  {
    if r != [] {
      var next := NextToggle(r);
      if next != -1 {
        var rest := SubstringFrom(r, next + 5);
        SliceIsDo(r, next);
        if Substring(r, next, next + 5) == "do()" {
          assert rest == [];
        } else {
          CollectedOff(rest);
        }
      }
    }
  }

  /** Part 2 keeps the memory up to its first toggle, whatever comes after. */
  lemma CollectedKeepsPrefix(r: string)
    ensures NextToggle(r) == -1 ==> Collected(r, true) == r
    ensures NextToggle(r) != -1 ==> Collected(r, true) == r[..NextToggle(r)]
  {
    if r != [] {
      var next := NextToggle(r);
      if next != -1 {
        var rest := SubstringFrom(r, next + 5);
        SliceIsDo(r, next);
        if Substring(r, next, next + 5) == "do()" {
          assert rest == [];
        } else {
          CollectedOff(rest);
        }
      }
    }
  }

  /** With no `do()` or `don't()` in the memory, part 2 gives the answer of part 1. */
  lemma SameAnswerWithoutToggles(r: string)
    requires forall i :: !OccursAt(r, "do()", i) && !OccursAt(r, "don't()", i)
    ensures SumFrom(Collected(r, true), 0) == SumFrom(r, 0)
  {
    CollectedKeepsPrefix(r);
  }

  // ---------------------------------------------------------------------------------
  // The toggle comparison

  lemma DoStopsCounting(r: string)
    requires r == "do()mul(2,3)"
    ensures Collected(r, true) == []
  {
    assert r[0..4] == "do()";
    assert NextToggle(r) == 0;
    CollectedKeepsPrefix(r);
  }

  lemma DoDroppedByFilter(r: string)
    requires r == "do()mul(2,3)"
    ensures Day03Scan.Filtered(r, true) == "mul(2,3)"
  {
    var g := r[4..];
    assert r == "do()" + g;
    Day03Scan.TogglesDropped(g, true);
    forall j ensures !OccursAt(g, "do()", j) && !OccursAt(g, "don't()", j) {
      if 0 <= j < |g| {
        assert g[j] == r[4 + j];
        Day03Scan.NotToggleAt(g, j);
      }
    }
    Day03Scan.FilteredNoToggles(g);
    assert g == "mul(2,3)";
  }

  /** A leading `do()` switches counting off here: `do()mul(2,3)` scores 0, where the
      character filter of the node runner keeps `mul(2,3)` and scores 6. */
  lemma DoIgnored(r: string)
    requires r == "do()mul(2,3)"
    ensures Collected(r, true) == []
    ensures Day03Scan.Filtered(r, true) == "mul(2,3)"
    ensures SumFrom(Collected(r, true), 0) == 0
    ensures SumFrom(Day03Scan.Filtered(r, true), 0) == 6
  {
    DoStopsCounting(r);
    DoDroppedByFilter(r);
    Day03Scan.GluedSum();
  }

  /** The loop with the toggle compared on its own four characters and skipped by its own
      length: `do()` switches counting on and `don't()` off. */
  function CollectedFixed(r: string, counting: bool): (c: string)
    ensures |c| <= |r|
    decreases |r|
  {
    if r == [] then []
    else
      var next := NextToggle(r);
      if next == -1 then (if counting then r else [])
      else
        var isDo := OccursAt(r, "do()", next);
        (if counting then r[..next] else []) +
        CollectedFixed(r[next + (if isDo then 4 else 7)..], isDo)
  }

  /** The corrected loop keeps what the character filter of the node runner keeps. */
  lemma {:induction false} CollectedFixedFilters(r: string, counting: bool)
    ensures CollectedFixed(r, counting) == Day03Scan.Filtered(r, counting)
    decreases |r|
  {
    if r != [] {
      var next := NextToggle(r);
      assert r[0..] == r;
      if next == -1 {
        Day03Scan.FilteredRun(r, 0, |r|, counting);
        assert r[|r|..] == [];
      } else {
        Day03Scan.FilteredRun(r, 0, next, counting);
        Day03Scan.FilteredStep(r, next, counting);
        var isDo := OccursAt(r, "do()", next);
        CollectedFixedFilters(r[next + (if isDo then 4 else 7)..], isDo);
      }
    }
  }
}
