/** Day 19 of 2024 (node_runner/src/solved/index.day19.ts): can a design be laid out from
    the available towel patterns, and in how many ways? Both searches recurse over the
    position reached in the design and cache results per position in a `Map`, which is
    threaded through the recursive calls here. */
module Day19Towels {
  import opened Wrappers
  import opened JsText

  /** An empty pattern would make the search recurse at the same position for ever. */
  predicate NonEmptyPatterns(patterns: seq<string>) {
    forall k :: 0 <= k < |patterns| ==> patterns[k] != []
  }

  /** `currentPos + pattern.length <= target.length && target.substring(…) === pattern`. */
  predicate MatchesAt(target: string, p: string, pos: nat) {
    pos + |p| <= |target| && target[pos..pos + |p|] == p
  }

  // ---------------------------------------------------------------- specification

  /** `ds` lists pattern indices whose patterns, laid end to end from `pos`, spell the rest
      of the design exactly. */
  predicate Decomposes(target: string, patterns: seq<string>, pos: nat, ds: seq<nat>)
    decreases |ds|
  {
    if ds == [] then pos == |target|
    else
      ds[0] < |patterns| && MatchesAt(target, patterns[ds[0]], pos)
      && Decomposes(target, patterns, pos + |patterns[ds[0]]|, ds[1..])
  }

  /** The answer of `canBuildPattern` at `pos`: the end is reached, or some pattern
      matches here and the rest can be built after it. */
  function CanBuild(target: string, patterns: seq<string>, pos: nat): bool
    requires pos <= |target| && NonEmptyPatterns(patterns)
    decreases |target| - pos, |patterns| + 1
  {
    pos == |target| || TryFrom(target, patterns, pos, 0)
  }

  /** Some pattern from index `k` on matches at `pos` and the rest can be built. */
  function TryFrom(target: string, patterns: seq<string>, pos: nat, k: nat): bool
    requires pos <= |target| && k <= |patterns| && NonEmptyPatterns(patterns)
    decreases |target| - pos, |patterns| - k
  {
    k < |patterns|
    && ((MatchesAt(target, patterns[k], pos) && CanBuild(target, patterns, pos + |patterns[k]|))
        || TryFrom(target, patterns, pos, k + 1))
  }

  /** The answer of `countPatternCombinations` at `pos`. */
  function Count(target: string, patterns: seq<string>, pos: nat): nat
    requires pos <= |target| && NonEmptyPatterns(patterns)
    decreases |target| - pos, |patterns| + 1
  {
    if pos == |target| then 1 else SumFrom(target, patterns, pos, 0)
  }

  /** The counts after each pattern from index `k` on that matches at `pos`. */
  function SumFrom(target: string, patterns: seq<string>, pos: nat, k: nat): nat
    requires pos <= |target| && k <= |patterns| && NonEmptyPatterns(patterns)
    decreases |target| - pos, |patterns| - k
  {
    if k == |patterns| then 0
    else
      (if MatchesAt(target, patterns[k], pos) then Count(target, patterns, pos + |patterns[k]|) else 0)
      + SumFrom(target, patterns, pos, k + 1)
  }

  // ---------------------------------------------------------------- can build <=> decomposition

  /** A decomposition exists whenever the search says yes. */
  lemma BuildWitness(target: string, patterns: seq<string>, pos: nat) returns (ds: seq<nat>)
    requires pos <= |target| && NonEmptyPatterns(patterns) && CanBuild(target, patterns, pos)
    ensures Decomposes(target, patterns, pos, ds)
    decreases |target| - pos, |patterns| + 1
  {
    if pos == |target| {
      ds := [];
    } else {
      ds := TryWitness(target, patterns, pos, 0);
    }
  }

  lemma TryWitness(target: string, patterns: seq<string>, pos: nat, k: nat) returns (ds: seq<nat>)
    requires pos <= |target| && k <= |patterns| && NonEmptyPatterns(patterns)
    requires TryFrom(target, patterns, pos, k)
    ensures Decomposes(target, patterns, pos, ds)
    decreases |target| - pos, |patterns| - k
  {
    if MatchesAt(target, patterns[k], pos) && CanBuild(target, patterns, pos + |patterns[k]|) {
      var rest := BuildWitness(target, patterns, pos + |patterns[k]|);
      ds := [k] + rest;
      assert ds[1..] == rest;
    } else {
      ds := TryWitness(target, patterns, pos, k + 1);
    }
  }

  /** The search says yes whenever a decomposition exists. */
  lemma {:induction false} BuildFromWitness(target: string, patterns: seq<string>, pos: nat, ds: seq<nat>)
    requires pos <= |target| && NonEmptyPatterns(patterns) && Decomposes(target, patterns, pos, ds)
    ensures CanBuild(target, patterns, pos)
    decreases |ds|
  {
    if ds != [] {
      var j := ds[0];
      BuildFromWitness(target, patterns, pos + |patterns[j]|, ds[1..]);
      TryReaches(target, patterns, pos, 0, j);
    }
  }

  /** Trying from index `k` finds the pattern at `j >= k` when that one works. */
  lemma {:induction false} TryReaches(target: string, patterns: seq<string>, pos: nat, k: nat, j: nat)
    requires pos <= |target| && k <= j < |patterns| && NonEmptyPatterns(patterns)
    requires MatchesAt(target, patterns[j], pos) && CanBuild(target, patterns, pos + |patterns[j]|)
    ensures TryFrom(target, patterns, pos, k)
    decreases j - k
  {
    if k < j {
      TryReaches(target, patterns, pos, k + 1, j);
    }
  }

  /** `canBuildPattern` holds exactly when the rest of the design is a concatenation of
      patterns; in particular it holds at the end of the design. */
  lemma CanBuildIff(target: string, patterns: seq<string>, pos: nat)
    requires pos <= |target| && NonEmptyPatterns(patterns)
    ensures CanBuild(target, patterns, pos) <==> exists ds: seq<nat> :: Decomposes(target, patterns, pos, ds)
    ensures pos == |target| ==> CanBuild(target, patterns, pos)
  {
    if CanBuild(target, patterns, pos) {
      var ds := BuildWitness(target, patterns, pos);
      assert Decomposes(target, patterns, pos, ds);
      assert exists d: seq<nat> :: Decomposes(target, patterns, pos, d);
      assert CanBuild(target, patterns, pos);
    } else {
      forall ds | Decomposes(target, patterns, pos, ds) ensures false {
        BuildFromWitness(target, patterns, pos, ds);
      }
    }
  }

  // ---------------------------------------------------------------- count = number of decompositions

  /** Every decomposition from `pos`, each once, grouped by first pattern index. */
  function AllDecomps(target: string, patterns: seq<string>, pos: nat): seq<seq<nat>>
    requires pos <= |target| && NonEmptyPatterns(patterns)
    decreases |target| - pos, |patterns| + 1
  {
    if pos == |target| then [[]] else DecompsFrom(target, patterns, pos, 0)
  }

  function DecompsFrom(target: string, patterns: seq<string>, pos: nat, k: nat): seq<seq<nat>>
    requires pos <= |target| && k <= |patterns| && NonEmptyPatterns(patterns)
    decreases |target| - pos, |patterns| - k
  {
    if k == |patterns| then []
    else
      (if MatchesAt(target, patterns[k], pos) then Led(k, AllDecomps(target, patterns, pos + |patterns[k]|)) else [])
      + DecompsFrom(target, patterns, pos, k + 1)
  }

  /** `k` in front of every list. */
  function Led(k: nat, xs: seq<seq<nat>>): (r: seq<seq<nat>>)
    ensures |r| == |xs|
  {
    seq(|xs|, i requires 0 <= i < |xs| => [k] + xs[i])
  }

  predicate Distinct<T(==)>(s: seq<T>) {
    forall i, j :: 0 <= i < j < |s| ==> s[i] != s[j]
  }

  lemma DistinctAppend<T>(a: seq<T>, b: seq<T>)
    requires Distinct(a) && Distinct(b) && forall x :: x in a ==> x !in b
    ensures Distinct(a + b)
  {
    forall i, j | 0 <= i < j < |a + b| ensures (a + b)[i] != (a + b)[j] {
      if j < |a| {
        assert (a + b)[i] == a[i] && (a + b)[j] == a[j];
      } else if i < |a| {
        assert (a + b)[i] == a[i] && (a + b)[j] == b[j - |a|];
        assert a[i] in a;
      } else {
        assert (a + b)[i] == b[i - |a|] && (a + b)[j] == b[j - |a|];
      }
    }
  }

  lemma LedDistinct(k: nat, xs: seq<seq<nat>>)
    requires Distinct(xs)
    ensures Distinct(Led(k, xs))
    ensures forall x :: x in Led(k, xs) <==> x != [] && x[0] == k && x[1..] in xs
  {
    var l := Led(k, xs);
    forall i, j | 0 <= i < j < |l| ensures l[i] != l[j] {
      assert l[i][1..] == xs[i] && l[j][1..] == xs[j];
    }
    forall x ensures x in l <==> x != [] && x[0] == k && x[1..] in xs {
      if x in l {
        var i :| 0 <= i < |l| && l[i] == x;
        assert x[1..] == xs[i];
      }
      if x != [] && x[0] == k && x[1..] in xs {
        var i :| 0 <= i < |xs| && xs[i] == x[1..];
        assert l[i] == x;
      }
    }
  }

  /** The listed decompositions are exactly the decompositions, each listed once, and
      there are `Count` of them. */
  lemma AllDecompsExact(target: string, patterns: seq<string>, pos: nat)
    requires pos <= |target| && NonEmptyPatterns(patterns)
    ensures Distinct(AllDecomps(target, patterns, pos))
    ensures forall ds: seq<nat> :: ds in AllDecomps(target, patterns, pos) <==> Decomposes(target, patterns, pos, ds)
    ensures |AllDecomps(target, patterns, pos)| == Count(target, patterns, pos)
    decreases |target| - pos, |patterns| + 1
  {
    if pos < |target| {
      DecompsFromExact(target, patterns, pos, 0);
    } else {
      forall ds ensures ds in AllDecomps(target, patterns, pos) <==> Decomposes(target, patterns, pos, ds) {
      }
    }
  }

  lemma DecompsFromExact(target: string, patterns: seq<string>, pos: nat, k: nat)
    requires pos < |target| && k <= |patterns| && NonEmptyPatterns(patterns)
    ensures Distinct(DecompsFrom(target, patterns, pos, k))
    ensures forall ds: seq<nat> :: (ds in DecompsFrom(target, patterns, pos, k)
      <==> ds != [] && k <= ds[0] && Decomposes(target, patterns, pos, ds))
    ensures |DecompsFrom(target, patterns, pos, k)| == SumFrom(target, patterns, pos, k)
    decreases |target| - pos, |patterns| - k
  {
    if k < |patterns| {
      DecompsFromExact(target, patterns, pos, k + 1);
      var tail := DecompsFrom(target, patterns, pos, k + 1);
      if MatchesAt(target, patterns[k], pos) {
        var head := Led(k, AllDecomps(target, patterns, pos + |patterns[k]|));
        HeadGroupExact(target, patterns, pos, k);
        DistinctAppend(head, tail);
        assert DecompsFrom(target, patterns, pos, k) == head + tail;
      } else {
        assert DecompsFrom(target, patterns, pos, k) == tail;
      }
    }
  }

  /** The decompositions starting with pattern `k`, which matches at `pos`. */
  lemma HeadGroupExact(target: string, patterns: seq<string>, pos: nat, k: nat)
    requires pos < |target| && k < |patterns| && NonEmptyPatterns(patterns)
    requires MatchesAt(target, patterns[k], pos)
    ensures var head := Led(k, AllDecomps(target, patterns, pos + |patterns[k]|));
      Distinct(head) && |head| == Count(target, patterns, pos + |patterns[k]|)
      && forall ds: seq<nat> :: (ds in head <==> ds != [] && ds[0] == k && Decomposes(target, patterns, pos, ds))
    decreases |target| - pos, 0
  {
    var next := pos + |patterns[k]|;
    AllDecompsExact(target, patterns, next);
    LedDistinct(k, AllDecomps(target, patterns, next));
  }

  /** `countPatternCombinations` is positive exactly when `canBuildPattern` holds (so the
      guard in `solve_pt2` never drops a non-zero count). */
  lemma CountPositiveIff(target: string, patterns: seq<string>, pos: nat)
    requires pos <= |target| && NonEmptyPatterns(patterns)
    ensures Count(target, patterns, pos) > 0 <==> CanBuild(target, patterns, pos)
    ensures pos == |target| ==> Count(target, patterns, pos) == 1
  {
    AllDecompsExact(target, patterns, pos);
    CanBuildIff(target, patterns, pos);
    var all := AllDecomps(target, patterns, pos);
    if CanBuild(target, patterns, pos) {
      var ds: seq<nat> :| Decomposes(target, patterns, pos, ds);
      assert ds in all;
      assert Count(target, patterns, pos) > 0;
    }
    if |all| > 0 {
      assert all[0] in all;
      assert Decomposes(target, patterns, pos, all[0]);
      assert exists d: seq<nat> :: Decomposes(target, patterns, pos, d);
    }
  }

  // ---------------------------------------------------------------- the memoised searches

  /** Every cached answer is the true one. */
  predicate BuildMemoOk(target: string, patterns: seq<string>, memo: map<nat, bool>)
    requires NonEmptyPatterns(patterns)
  {
    forall q :: q in memo ==> q <= |target| && memo[q] == CanBuild(target, patterns, q)
  }

  /** `canBuildPattern`: the end of the design succeeds; a cached position answers at
      once; otherwise the first pattern that matches and leads to a buildable rest gives
      true, and the answer is cached. */
  method CanBuildPattern(target: string, patterns: seq<string>, currentPos: nat, memo: map<nat, bool>)
    returns (b: bool, memo': map<nat, bool>)
    requires currentPos <= |target| && NonEmptyPatterns(patterns) && BuildMemoOk(target, patterns, memo)
    ensures b == CanBuild(target, patterns, currentPos) && BuildMemoOk(target, patterns, memo')
    decreases |target| - currentPos
  {
    if currentPos == |target| {
      return true, memo;
    }
    if currentPos in memo {
      return memo[currentPos], memo;
    }
    memo' := memo;
    for k := 0 to |patterns|
      invariant BuildMemoOk(target, patterns, memo')
      invariant TryFrom(target, patterns, currentPos, 0) == TryFrom(target, patterns, currentPos, k)
    {
      var pattern := patterns[k];
      if currentPos + |pattern| <= |target| && target[currentPos..currentPos + |pattern|] == pattern {
        var found;
        found, memo' := CanBuildPattern(target, patterns, currentPos + |pattern|, memo');
        if found {
          memo' := memo'[currentPos := true];
          return true, memo';
        }
      }
    }
    memo' := memo'[currentPos := false];
    return false, memo';
  }

  /** Every cached count is the true one. */
  predicate CountMemoOk(target: string, patterns: seq<string>, memo: map<nat, nat>)
    requires NonEmptyPatterns(patterns)
  {
    forall q :: q in memo ==> q <= |target| && memo[q] == Count(target, patterns, q)
  }

  /** `countPatternCombinations`: 1 at the end of the design; a cached position answers at
      once; otherwise the sum of the counts after every matching pattern, then cached. */
  method CountPatternCombinations(target: string, patterns: seq<string>, currentPos: nat, memo: map<nat, nat>)
    returns (n: nat, memo': map<nat, nat>)
    requires currentPos <= |target| && NonEmptyPatterns(patterns) && CountMemoOk(target, patterns, memo)
    ensures n == Count(target, patterns, currentPos) && CountMemoOk(target, patterns, memo')
    decreases |target| - currentPos
  {
    if currentPos == |target| {
      return 1, memo;
    }
    if currentPos in memo {
      return memo[currentPos], memo;
    }
    memo' := memo;
    var totalCombinations := 0;
    for k := 0 to |patterns|
      invariant CountMemoOk(target, patterns, memo')
      invariant totalCombinations + SumFrom(target, patterns, currentPos, k) == SumFrom(target, patterns, currentPos, 0)
    {
      var pattern := patterns[k];
      if currentPos + |pattern| <= |target| && target[currentPos..currentPos + |pattern|] == pattern {
        var more;
        more, memo' := CountPatternCombinations(target, patterns, currentPos + |pattern|, memo');
        totalCombinations := totalCombinations + more;
      }
    }
    memo' := memo'[currentPos := totalCombinations];
    return totalCombinations, memo';
  }

  // ---------------------------------------------------------------- solvers

  /** The number of designs that can be built. */
  function Buildable(designs: seq<string>, patterns: seq<string>): nat
    requires NonEmptyPatterns(patterns)
  {
    if designs == [] then 0
    else Buildable(designs[..|designs| - 1], patterns) + if CanBuild(designs[|designs| - 1], patterns, 0) then 1 else 0
  }

  /** The sum of the counts of the designs that can be built. */
  function Arrangements(designs: seq<string>, patterns: seq<string>): nat
    requires NonEmptyPatterns(patterns)
  {
    if designs == [] then 0
    else
      var d := designs[|designs| - 1];
      Arrangements(designs[..|designs| - 1], patterns) + if CanBuild(d, patterns, 0) then Count(d, patterns, 0) else 0
  }

  /** The loop of `solve_pt1`, each design searched with a fresh cache. */
  method CountPossible(designs: seq<string>, patterns: seq<string>) returns (possibleDesigns: nat)
    requires NonEmptyPatterns(patterns)
    ensures possibleDesigns == Buildable(designs, patterns)
  {
    possibleDesigns := 0;
    for i := 0 to |designs|
      invariant possibleDesigns == Buildable(designs[..i], patterns)
    {
      assert designs[..i + 1][..i] == designs[..i];
      var ok, _ := CanBuildPattern(designs[i], patterns, 0, map[]);
      if ok {
        possibleDesigns := possibleDesigns + 1;
      }
    }
    assert designs[..|designs|] == designs;
  }

  /** The loop of `solve_pt2`. */
  method CountArrangements(designs: seq<string>, patterns: seq<string>) returns (totalCombinations: nat)
    requires NonEmptyPatterns(patterns)
    ensures totalCombinations == Arrangements(designs, patterns)
  {
    totalCombinations := 0;
    for i := 0 to |designs|
      invariant totalCombinations == Arrangements(designs[..i], patterns)
    {
      assert designs[..i + 1][..i] == designs[..i];
      var ok, _ := CanBuildPattern(designs[i], patterns, 0, map[]);
      if ok {
        var n, _ := CountPatternCombinations(designs[i], patterns, 0, map[]);
        totalCombinations := totalCombinations + n;
      }
    }
    assert designs[..|designs|] == designs;
  }

  /** Every buildable design adds at least one arrangement. */
  lemma {:induction false} ArrangementsAtLeastBuildable(designs: seq<string>, patterns: seq<string>)
    requires NonEmptyPatterns(patterns)
    ensures Buildable(designs, patterns) <= Arrangements(designs, patterns)
  {
    if designs != [] {
      ArrangementsAtLeastBuildable(designs[..|designs| - 1], patterns);
      CountPositiveIff(designs[|designs| - 1], patterns, 0);
    }
  }

  /** The input: patterns before the first blank line, separated by `", "`, then one design
      per line; both trimmed. */
  datatype Towels = Towels(patterns: seq<string>, designs: seq<string>)

  function TrimAll(xs: seq<string>): (r: seq<string>)
    ensures |r| == |xs| && forall i :: 0 <= i < |xs| ==> r[i] == Trim(xs[i])
  {
    seq(|xs|, i requires 0 <= i < |xs| => Trim(xs[i]))
  }

  /** `data.split('\n\n')`: without a blank line `designsStr` is undefined and its `split`
      throws. */
  function ParseInput(data: string): (r: Result<Towels>)
    ensures r.Err? <==> |Split(data, "\n\n")| < 2
  {
    var parts := Split(data, "\n\n");
    if |parts| < 2 then Err("TypeError")
    else Ok(Towels(TrimAll(Split(parts[0], ", ")), TrimAll(Split(parts[1], "\n"))))
  }

  /** `solve_pt1` and `solve_pt2` on the file text: the parse error, an error for an empty
      pattern, or the two counts. */
  method Solve(data: string) returns (r: Result<(nat, nat)>)
    ensures r.Ok? <==> ParseInput(data).Ok? && NonEmptyPatterns(ParseInput(data).value.patterns)
    ensures r.Ok? ==> ParseInput(data).Ok? && var t := ParseInput(data).value;
      NonEmptyPatterns(t.patterns)
      && r.value == (Buildable(t.designs, t.patterns), Arrangements(t.designs, t.patterns))
      && r.value.0 <= r.value.1
  {
    var parsed := ParseInput(data);
    if parsed.Err? {
      return Err(parsed.message);
    }
    var t := parsed.value;
    if !NonEmptyPatterns(t.patterns) {
      return Err("RangeError");
    }
    var part1 := CountPossible(t.designs, t.patterns);
    var part2 := CountArrangements(t.designs, t.patterns);
    ArrangementsAtLeastBuildable(t.designs, t.patterns);
    r := Ok((part1, part2));
  }
}
