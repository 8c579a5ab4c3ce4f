/** Day 1 of 2024 (solved_work_Day1): the total distance between two sorted location
    lists, and their similarity score. */
module Day01Lists {
  import opened Wrappers
  import opened JsText

  // ---------------------------------------------------------------- parsing

  predicate IsBlank(line: string) { |Trim(line)| == 0 }

  /** The lines of `input` that are not blank, in order. */
  function NonBlank(lines: seq<string>): (r: seq<string>)
    ensures |r| <= |lines|
    ensures forall i :: 0 <= i < |r| ==> !IsBlank(r[i])
    ensures multiset(r) <= multiset(lines)
  {
    if lines == [] then []
    else
      var init, last := lines[..|lines| - 1], lines[|lines| - 1];
      assert lines == init + [last];
      var rest := NonBlank(init);
      if IsBlank(last) then rest else rest + [last]
  }

  /** `line.split(' ')[k]` read with `parseInt(_.trim(), 10)`; a missing field and a
      field with no digits are both `NaN`, written `None`. */
  function Field(line: string, k: nat): Option<int> {
    var parts := Split(line, " ");
    if k < |parts| then ParseInt(Trim(parts[k])) else None
  }

  /** Fields are separated by single spaces, so a line written with a run of spaces, such
      as `3   4`, has an empty second field, which reads as NaN. */
  lemma RunOfSpacesIsNaN(line: string)
    requires line == "3   4"
    ensures Field(line, 1) == None
  {
    assert line == "3" + " " + "  4";
    SplitFirst("3", " ", "  4");
    assert "  4" == "" + " " + " 4";
    SplitFirst("", " ", " 4");
    assert Split(line, " ")[1] == "";
  }

  /** The non-blank lines of the input. */
  function DataLines(input: string): seq<string> {
    NonBlank(Split(input, "\n"))
  }

  /** Field `k` of every line, in order. */
  function Column(lines: seq<string>, k: nat): (r: seq<Option<int>>)
    ensures |r| == |lines|
  {
    seq(|lines|, i requires 0 <= i < |lines| => Field(lines[i], k))
  }

  lemma ColumnSnoc(lines: seq<string>, i: nat, k: nat)
    requires i < |lines|
    ensures Column(lines[..i + 1], k) == Column(lines[..i], k) + [Field(lines[i], k)]
  {
    var a, b := Column(lines[..i + 1], k), Column(lines[..i], k) + [Field(lines[i], k)];
    forall j | 0 <= j < i + 1 ensures a[j] == b[j] {
      assert lines[..i + 1][j] == lines[j];
    }
  }

  datatype Lists = Lists(left: seq<Option<int>>, right: seq<Option<int>>)

  /** `parseInput`: one left and one right entry for every non-blank line, read from that
      line's first and second space-separated fields. */
  method ParseInput(input: string) returns (data: Lists)
    ensures |data.left| == |data.right| == |DataLines(input)|
    ensures data.left == Column(DataLines(input), 0) && data.right == Column(DataLines(input), 1)
  {
    var lines := DataLines(input);
    var left: seq<Option<int>> := [];
    var right: seq<Option<int>> := [];
    var i := 0;
    while i < |lines|
      invariant 0 <= i <= |lines|
      invariant left == Column(lines[..i], 0) && right == Column(lines[..i], 1)
    {
      ColumnSnoc(lines, i, 0);
      ColumnSnoc(lines, i, 1);
      left := left + [Field(lines[i], 0)];
      right := right + [Field(lines[i], 1)];
      i := i + 1;
    }
    assert lines[..i] == lines;
    data := Lists(left, right);
  }

  // ---------------------------------------------------------------- sorting

  predicate SortedAsc(s: seq<int>) {
    forall i, j :: 0 <= i < j < |s| ==> s[i] <= s[j]
  }

  function Insert(x: int, s: seq<int>): (r: seq<int>)
    requires SortedAsc(s)
    ensures multiset(r) == multiset(s) + multiset{x} && |r| == |s| + 1
    ensures r[0] == (if s == [] || x <= s[0] then x else s[0])
    ensures SortedAsc(r)
  {
    if s == [] then [x]
    else if x <= s[0] then ConsSorted(x, s); [x] + s
    else
      assert s == [s[0]] + s[1..];
      assert SortedAsc(s[1..]);
      var t := Insert(x, s[1..]);
      ConsSorted(s[0], t);
      assert multiset([s[0]] + t) == multiset{s[0]} + multiset(t);
      [s[0]] + t
  }

  lemma ConsSorted(x: int, t: seq<int>)
    requires SortedAsc(t) && (t == [] || x <= t[0])
    ensures SortedAsc([x] + t)
  {
    forall i, j | 0 <= i < j < |t| + 1 ensures ([x] + t)[i] <= ([x] + t)[j] {
      if i > 0 { assert ([x] + t)[i] == t[i - 1]; }
      assert ([x] + t)[j] == t[j - 1];
    }
  }

  /** `[...xs].sort((a, b) => a - b)`: an ascending permutation of `xs`. */
  function SortAscending(xs: seq<int>): (r: seq<int>)
    ensures SortedAsc(r) && multiset(r) == multiset(xs) && |r| == |xs|
  {
    if xs == [] then []
    else
      assert xs == [xs[0]] + xs[1..];
      Insert(xs[0], SortAscending(xs[1..]))
  }

  /** Two ascending sequences holding the same multiset are equal, so the sorted copy
      does not depend on the order of the list. */
  lemma {:induction false} SortedUnique(a: seq<int>, b: seq<int>)
    requires SortedAsc(a) && SortedAsc(b) && multiset(a) == multiset(b)
    ensures a == b
    decreases |a|
  {
    if a == [] || b == [] {
      assert |multiset(a)| == |a| && |multiset(b)| == |b|;
    } else {
      SameHead(a, b);
      MultisetTail(a);
      MultisetTail(b);
      SortedTail(a);
      SortedTail(b);
      SortedUnique(a[1..], b[1..]);
      assert a == [a[0]] + a[1..] && b == [b[0]] + b[1..];
    }
  }

  lemma SameHead(a: seq<int>, b: seq<int>)
    requires SortedAsc(a) && SortedAsc(b) && multiset(a) == multiset(b) && a != [] && b != []
    ensures a[0] == b[0]
  {
    assert a[0] in multiset(a) && b[0] in multiset(b);
    SortedHeadIsLeast(b, a[0]);
    SortedHeadIsLeast(a, b[0]);
  }

  lemma MultisetTail(s: seq<int>)
    requires s != []
    ensures multiset(s[1..]) == multiset(s) - multiset{s[0]}
  {
    assert s == [s[0]] + s[1..];
  }

  lemma SortedTail(s: seq<int>)
    requires SortedAsc(s) && s != []
    ensures SortedAsc(s[1..])
  {
    forall i, j | 0 <= i < j < |s| - 1 ensures s[1..][i] <= s[1..][j] {
      assert s[1..][i] == s[i + 1] && s[1..][j] == s[j + 1];
    }
  }

  lemma SortedHeadIsLeast(s: seq<int>, x: int)
    requires SortedAsc(s) && x in multiset(s)
    ensures s[0] <= x
  {
    assert x in s;
  }

  // ---------------------------------------------------------------- part 1

  function Abs(x: int): nat { if x < 0 then -x else x }

  /** The sum of `|a[i] - b[i]|` over the common length. */
  function PairDistance(a: seq<int>, b: seq<int>): (d: nat)
    requires |a| == |b|
  {
    if a == [] then 0 else PairDistance(a[..|a| - 1], b[..|b| - 1]) + Abs(a[|a| - 1] - b[|b| - 1])
  }

  function TotalDistance(left: seq<int>, right: seq<int>): nat
    requires |left| == |right|
  {
    PairDistance(SortAscending(left), SortAscending(right))
  }

  /** Every entry is a number: none is NaN or `undefined`. */
  predicate AllNumbers(xs: seq<Option<int>>) {
    forall i :: 0 <= i < |xs| ==> xs[i].Some?
  }

  /** The entries that are numbers, in order. */
  function Numbers(xs: seq<Option<int>>): (r: seq<int>)
    ensures |r| <= |xs|
    ensures AllNumbers(xs) ==> |r| == |xs| && forall i :: 0 <= i < |xs| ==> r[i] == xs[i].value
  {
    if xs == [] then []
    else
      var init := xs[..|xs| - 1];
      assert forall i :: 0 <= i < |init| ==> init[i] == xs[i];
      var rest := Numbers(init);
      match xs[|xs| - 1]
      case Some(x) => rest + [x]
      case None => rest
  }

  /** `solve_pt1`: lists of different length throw. A NaN or `undefined` entry makes the
      distance of the pair it is sorted into, and so the total, NaN (`None`), wherever the
      inconsistent comparator leaves it; lists of numbers give the distance between the
      sorted copies, accumulated pair by pair. */
  method SolvePart1(left: seq<Option<int>>, right: seq<Option<int>>) returns (r: Result<Option<nat>>)
    ensures |left| != |right| <==> r.Err?
    ensures r.Ok? ==> (r.value.Some? <==> AllNumbers(left) && AllNumbers(right))
    ensures r.Ok? && r.value.Some? ==>
      |Numbers(left)| == |Numbers(right)| && r.value.value == TotalDistance(Numbers(left), Numbers(right))
  {
    if |left| != |right| {
      return Err("Left and right lists must have equal length");
    }
    if !(AllNumbers(left) && AllNumbers(right)) {
      return Ok(None);
    }
    var sortedLeft := SortAscending(Numbers(left));
    var sortedRight := SortAscending(Numbers(right));
    var total := SumDistances(sortedLeft, sortedRight);
    return Ok(Some(total));
  }

  /** The loop of `solve_pt1`: the distances of the pairs, added up in order. */
  method SumDistances(a: seq<int>, b: seq<int>) returns (total: nat)
    requires |a| == |b|
    ensures total == PairDistance(a, b)
  {
    total := 0;
    var i := 0;
    while i < |a|
      invariant 0 <= i <= |a|
      invariant total == PairDistance(a[..i], b[..i])
    {
      assert a[..i + 1][..i] == a[..i];
      assert b[..i + 1][..i] == b[..i];
      total := total + Abs(a[i] - b[i]);
      i := i + 1;
    }
    assert a[..i] == a && b[..i] == b;
  }

  lemma {:induction false} PairDistanceSelf(a: seq<int>)
    ensures PairDistance(a, a) == 0
  {
    if a != [] {
      PairDistanceSelf(a[..|a| - 1]);
    }
  }

  /** The distance is zero when one list is a rearrangement of the other. */
  lemma DistanceOfPermutation(left: seq<int>, right: seq<int>)
    requires |left| == |right| && multiset(left) == multiset(right)
    ensures TotalDistance(left, right) == 0
  {
    SortedUnique(SortAscending(left), SortAscending(right));
    PairDistanceSelf(SortAscending(left));
  }

  /** The distance does not depend on the order in which either list is given. */
  lemma DistanceIgnoresOrder(left: seq<int>, left': seq<int>, right: seq<int>)
    requires |left| == |right| && multiset(left) == multiset(left')
    ensures |left'| == |right| && TotalDistance(left', right) == TotalDistance(left, right)
  {
    assert |left'| == |multiset(left')| == |multiset(left)| == |left|;
    SortedUnique(SortAscending(left), SortAscending(left'));
  }

  // ---------------------------------------------------------------- part 2

  function Count(s: seq<int>, x: int): nat {
    if s == [] then 0 else Count(s[..|s| - 1], x) + (if s[|s| - 1] == x then 1 else 0)
  }

  /** The similarity score: every left number times the number of times it occurs on
      the right. */
  function Similarity(left: seq<int>, right: seq<int>): int {
    if left == [] then 0
    else Similarity(left[..|left| - 1], right) + left[|left| - 1] * Count(right, left[|left| - 1])
  }

  lemma NumbersSnoc(xs: seq<Option<int>>, i: nat)
    requires i < |xs|
    ensures xs[i].Some? ==> Numbers(xs[..i + 1]) == Numbers(xs[..i]) + [xs[i].value]
    ensures xs[i].None? ==> Numbers(xs[..i + 1]) == Numbers(xs[..i])
    ensures AllNumbers(xs[..i + 1]) <==> AllNumbers(xs[..i]) && xs[i].Some?
  {
    assert xs[..i + 1][..i] == xs[..i];
    assert xs[..i + 1][i] == xs[i];
    var ys, zs := xs[..i + 1], xs[..i];
    if AllNumbers(zs) && xs[i].Some? {
      forall k | 0 <= k < i + 1 ensures ys[k].Some? {
        if k < i { assert ys[k] == zs[k]; }
      }
    }
    if AllNumbers(ys) {
      forall k | 0 <= k < i ensures zs[k].Some? {
        assert zs[k] == ys[k];
      }
    }
  }

  lemma CountSnoc(s: seq<int>, v: int, x: int)
    ensures Count(s + [v], x) == Count(s, x) + (if v == x then 1 else 0)
  {
    assert (s + [v])[..|s + [v]| - 1] == s;
  }

  /** `frequency` maps each number of `s`, and nothing else, to its number of occurrences. */
  ghost predicate Tallies(frequency: map<int, nat>, s: seq<int>) {
    forall x :: (x in frequency <==> Count(s, x) > 0) && (x in frequency ==> frequency[x] == Count(s, x))
  }

  /** Counting one more number raises its entry by one, adding it when it is new. */
  lemma TalliesSnoc(frequency: map<int, nat>, s: seq<int>, v: int)
    requires Tallies(frequency, s)
    ensures Tallies(frequency[v := (if v in frequency then frequency[v] else 0) + 1], s + [v])
  {
    forall x ensures Count(s + [v], x) == Count(s, x) + (if v == x then 1 else 0) {
      CountSnoc(s, v, x);
    }
  }

  /** The `rightFrequency` map of `solve_pt2`: each number of the right list is a key,
      mapped to the number of times it occurs. The NaN and `undefined` keys a right list
      may add are found only by a NaN on the left, so they are left out of the map. */
  method Frequency(right: seq<Option<int>>) returns (frequency: map<int, nat>)
    ensures forall x :: x in frequency <==> Count(Numbers(right), x) > 0
    ensures forall x :: x in frequency ==> frequency[x] == Count(Numbers(right), x)
  {
    frequency := map[];
    var j := 0;
    while j < |right|
      invariant 0 <= j <= |right|
      invariant Tallies(frequency, Numbers(right[..j]))
    {
      NumbersSnoc(right, j);
      if right[j].Some? {
        var v := right[j].value;
        TalliesSnoc(frequency, Numbers(right[..j]), v);
        frequency := frequency[v := (if v in frequency then frequency[v] else 0) + 1];
      }
      j := j + 1;
    }
    assert right[..j] == right;
  }

  /** One more number on the left adds its product with its count on the right. */
  lemma SimilarityNext(left: seq<Option<int>>, i: nat, right: seq<int>, score: int, f: nat)
    requires i < |left| && left[i].Some?
    requires score == Similarity(Numbers(left[..i]), right) && f == Count(right, left[i].value)
    ensures score + left[i].value * f == Similarity(Numbers(left[..i + 1]), right)
  {
    NumbersSnoc(left, i);
    var l := Numbers(left[..i]);
    assert (l + [left[i].value])[..|l|] == l;
  }

  /** `solve_pt2`: a frequency map of the right list, then one pass over the left list (a
      number absent from the map counts zero times). A NaN on the left makes its product,
      and so the score, NaN (`None`). */
  method SolvePart2(left: seq<Option<int>>, right: seq<Option<int>>) returns (total: Option<int>)
    ensures total.Some? <==> AllNumbers(left)
    ensures total.Some? ==> total.value == Similarity(Numbers(left), Numbers(right))
  {
    var frequency := Frequency(right);
    total := Some(0);
    var i := 0;
    while i < |left|
      invariant 0 <= i <= |left|
      invariant total.Some? <==> AllNumbers(left[..i])
      invariant total.Some? ==> total.value == Similarity(Numbers(left[..i]), Numbers(right))
    {
      NumbersSnoc(left, i);
      if left[i].Some? && total.Some? {
        var v := left[i].value;
        var f := if v in frequency then frequency[v] else 0;
        SimilarityNext(left, i, Numbers(right), total.value, f);
        total := Some(total.value + v * f);
      } else {
        total := None;
      }
      i := i + 1;
    }
    assert left[..i] == left;
  }

  lemma {:induction false} SimilarityAppendRight(left: seq<int>, right: seq<int>, y: int)
    ensures Similarity(left, right + [y]) == Similarity(left, right) + y * Count(left, y)
    decreases |left|
  {
    if left != [] {
      var l, x := left[..|left| - 1], left[|left| - 1];
      SimilarityAppendRight(l, right, y);
      assert (right + [y])[..|right + [y]| - 1] == right;
      var b := if x == y then 1 else 0;
      assert Count(right + [y], x) == Count(right, x) + b;
      assert Count(left, y) == Count(l, y) + b;
      SwapFactor(x, y, Count(right, x), Count(l, y), b);
    }
  }

  lemma SwapFactor(x: int, y: int, c: int, d: int, b: int)
    requires b == if x == y then 1 else 0
    ensures x * (c + b) + y * d == x * c + y * (d + b)
  {
    if x == y {
      assert x * (c + 1) == x * c + x;
      assert y * (d + 1) == y * d + y;
    }
  }

  /** The score is symmetric: counting the left numbers on the right gives the same sum
      as counting the right numbers on the left. */
  lemma {:induction false} SimilaritySymmetric(left: seq<int>, right: seq<int>)
    ensures Similarity(left, right) == Similarity(right, left)
    decreases |right|
  {
    if right == [] {
      SimilarityOfEmpty(left);
    } else {
      var r := right[..|right| - 1];
      var y := right[|right| - 1];
      assert right == r + [y];
      SimilarityAppendRight(left, r, y);
      SimilaritySymmetric(left, r);
    }
  }

  lemma {:induction false} SimilarityOfEmpty(left: seq<int>)
    ensures Similarity(left, []) == 0
    decreases |left|
  {
    if left != [] {
      SimilarityOfEmpty(left[..|left| - 1]);
    }
  }
}
