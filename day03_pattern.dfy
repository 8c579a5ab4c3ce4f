/** Day 3: the pattern `/mul\((\d{1,3}),(\d{1,3})\)/` that both Day 3 programs search for,
    written out as a scanner, and the left-to-right, non-overlapping list of its matches
    that `matchAll` with the `g` flag (or a `match` repeated on the rest of the text)
    yields. */
module Day03Pattern {
  import opened Wrappers
  import opened JsText

  /** One to three decimal digits: what `\d{1,3}` matches. */
  predicate Numeral(d: string) {
    1 <= |d| <= 3 && AllDigits(d)
  }

  /** The text of a match: `mul(`, a numeral, a comma, a numeral and `)`. */
  function MulText(num1: string, num2: string): string {
    "mul(" + num1 + "," + num2 + ")"
  }

  /** A match: the index it starts at and its two groups. */
  datatype Mul = Mul(at: nat, num1: string, num2: string)

  /** Both groups are numerals. */
  predicate WellFormed(m: Mul) {
    Numeral(m.num1) && Numeral(m.num2)
  }

  /** The length of the matched text. */
  function Length(m: Mul): nat {
    |m.num1| + |m.num2| + 6
  }

  /** The index just past the match, where the next search resumes. */
  function End(m: Mul): nat {
    m.at + Length(m)
  }

  // ---------------------------------------------------------------------------------
  // Text facts

  /** Two pieces that occur side by side occur together. */
  lemma OccursJoined(s: string, a: string, b: string, i: int)
    requires OccursAt(s, a, i) && OccursAt(s, b, i + |a|)
    ensures OccursAt(s, a + b, i)
  {
    assert s[i..i + |a + b|] == s[i..i + |a|] + s[i + |a|..i + |a| + |b|];
  }

  /** A piece of an occurrence occurs where it stands in it. */
  lemma OccursPart(s: string, a: string, b: string, i: int)
    requires OccursAt(s, a + b, i)
    ensures OccursAt(s, a, i) && OccursAt(s, b, i + |a|)
  {
    assert s[i..i + |a|] == s[i..i + |a + b|][..|a|] == (a + b)[..|a|] == a;
    assert s[i + |a|..i + |a| + |b|] == s[i..i + |a + b|][|a|..] == (a + b)[|a|..] == b;
  }

  /** Occurrences in a suffix are the occurrences in the whole text, shifted. */
  lemma OccursShift(s: string, w: string, k: nat, j: int)
    requires k <= |s|
    ensures OccursAt(s[k..], w, j) <==> j >= 0 && OccursAt(s, w, k + j)
  {
    if 0 <= j && j + |w| <= |s| - k {
      assert s[k..][j..j + |w|] == s[k + j..k + j + |w|];
    }
  }

  // ---------------------------------------------------------------------------------
  // The scanner

  /** A decimal digit stands at index p. */
  predicate DigitAt(s: string, p: int) {
    0 <= p < |s| && IsDigit(s[p])
  }

  /** How many decimal digits, at most three, stand from index p on. */
  function DigitsFrom(s: string, p: nat): (k: nat)
    ensures k <= 3
  {
    if !DigitAt(s, p) then 0
    else if !DigitAt(s, p + 1) then 1
    else if !DigitAt(s, p + 2) then 2
    else 3
  }

  /** A run of one to three digits that ends before a non-digit is what `DigitsFrom`
      counts. */
  lemma DigitsFromExact(s: string, p: nat, m: nat)
    requires 1 <= m <= 3 && p + m < |s| && !IsDigit(s[p + m])
    requires forall j :: p <= j < p + m ==> IsDigit(s[j])
    ensures DigitsFrom(s, p) == m
  {
    assert DigitAt(s, p);
    if m >= 2 {
      assert DigitAt(s, p + 1);
    }
    if m == 3 {
      assert DigitAt(s, p + 2);
    }
  }

  lemma DigitAtShift(s: string, k: nat, p: nat)
    requires k <= |s|
    ensures DigitAt(s[k..], p) == DigitAt(s, k + p)
  {
    if k + p < |s| {
      assert s[k..][p] == s[k + p];
    }
  }

  /** The digits counted form a digit string inside the text. */
  lemma DigitsFromRun(s: string, p: nat)
    ensures DigitsFrom(s, p) == 0 || p + DigitsFrom(s, p) <= |s|
    ensures p + DigitsFrom(s, p) <= |s| ==> AllDigits(s[p..p + DigitsFrom(s, p)])
  {
    var k := DigitsFrom(s, p);
    if p + k <= |s| {
      var run := s[p..p + k];
      forall j | 0 <= j < k ensures IsDigit(run[j]) {
        assert DigitAt(s, p + j);
      }
    }
  }

  /** Shifting the text shifts the count. */
  lemma DigitsFromShift(s: string, k: nat, p: nat)
    requires k <= |s|
    ensures DigitsFrom(s[k..], p) == DigitsFrom(s, k + p)
  {
    DigitAtShift(s, k, p);
    DigitAtShift(s, k, p + 1);
    DigitAtShift(s, k, p + 2);
  }

  /** `\d{1,3}` followed by `close`, tried at p: the digits from p when there are one to
      three of them and `close` comes right after. Since `close` is not a digit, the
      greedy repetition can only succeed with the whole run. */
  function NumeralAt(s: string, p: nat, close: char): (r: Option<string>)
    ensures r.Some? ==> Numeral(r.value) && p + |r.value| < |s| && s[p + |r.value|] == close
  {
    var k := DigitsFrom(s, p);
    DigitsFromRun(s, p);
    if 1 <= k && p + k < |s| && s[p + k] == close then Some(s[p..p + k])
    else None
  }

  /** What `NumeralAt` finds occurs at p, followed by `close`. */
  lemma NumeralAtOccurs(s: string, p: nat, close: char)
    requires NumeralAt(s, p, close).Some?
    ensures OccursAt(s, NumeralAt(s, p, close).value, p)
    ensures OccursAt(s, [close], p + |NumeralAt(s, p, close).value|)
  {
    var k := DigitsFrom(s, p);
    assert s[p + k..p + k + 1] == [close];
  }

  /** A numeral followed by a non-digit `close` is what `NumeralAt` finds. */
  lemma NumeralAtFinds(s: string, p: nat, d: string, close: char)
    requires Numeral(d) && !IsDigit(close)
    requires OccursAt(s, d, p) && OccursAt(s, [close], p + |d|)
    ensures NumeralAt(s, p, close) == Some(d)
  {
    forall j | p <= j < p + |d| ensures IsDigit(s[j]) {
      assert s[j] == s[p..p + |d|][j - p];
    }
    assert s[p + |d|] == s[p + |d|..p + |d| + 1][0];
    DigitsFromExact(s, p, |d|);
  }

  /** Trying a numeral in a suffix is trying it in the whole text, shifted. */
  lemma NumeralAtShift(s: string, k: nat, p: nat, close: char)
    requires k <= |s|
    ensures NumeralAt(s[k..], p, close) == NumeralAt(s, k + p, close)
  {
    DigitsFromShift(s, k, p);
    var c := DigitsFrom(s, k + p);
    if 1 <= c && k + p + c < |s| {
      assert s[k..][p + c] == s[k + p + c];
      assert s[k..][p..p + c] == s[k + p..k + p + c];
    }
  }

  /** `mul(` starts at index i. */
  predicate OpensAt(s: string, i: nat) {
    i + 4 <= |s| && s[i] == 'm' && s[i + 1] == 'u' && s[i + 2] == 'l' && s[i + 3] == '('
  }

  lemma OpensAtOccurs(s: string, i: nat)
    ensures OpensAt(s, i) <==> OccursAt(s, "mul(", i)
  {
    if i + 4 <= |s| {
      var w := s[i..i + 4];
      assert w[0] == s[i] && w[1] == s[i + 1] && w[2] == s[i + 2] && w[3] == s[i + 3];
    }
  }

  /** The pattern tried at index i: `mul(`, a numeral closed by a comma, a numeral closed
      by `)`. A result is a match of the pattern there. */
  function MulAt(s: string, i: nat): (r: Option<Mul>)
    ensures r.Some? ==> r.value.at == i && WellFormed(r.value) && End(r.value) <= |s|
  {
    if !OpensAt(s, i) then None
    else match NumeralAt(s, i + 4, ',')
      case None => None
      case Some(num1) =>
        match NumeralAt(s, i + 5 + |num1|, ')')
        case None => None
        case Some(num2) => Some(Mul(i, num1, num2))
  }

  /** What `MulAt` finds is a match of the pattern: its text occurs there. */
  lemma MulAtSound(s: string, i: nat)
    requires MulAt(s, i).Some?
    ensures OccursAt(s, MulText(MulAt(s, i).value.num1, MulAt(s, i).value.num2), i)
  {
    var num1 := MulAt(s, i).value.num1;
    var num2 := MulAt(s, i).value.num2;
    OpensAtOccurs(s, i);
    NumeralAtOccurs(s, i + 4, ',');
    NumeralAtOccurs(s, i + 5 + |num1|, ')');
    OccursJoined(s, "mul(", num1, i);
    OccursJoined(s, "mul(" + num1, ",", i);
    OccursJoined(s, "mul(" + num1 + ",", num2, i);
    OccursJoined(s, "mul(" + num1 + "," + num2, ")", i);
  }

  /** Every match of the pattern at index i is found there, with its groups: together with
      the contract of `MulAt` the scanner succeeds exactly where the pattern matches. */
  lemma MulAtFinds(s: string, i: nat, num1: string, num2: string)
    requires Numeral(num1) && Numeral(num2) && OccursAt(s, MulText(num1, num2), i)
    ensures MulAt(s, i) == Some(Mul(i, num1, num2))
  {
    MulAtPieces(s, i, num1, num2);
  }

  /** The pieces of a match of the pattern, as the scanner reads them. */
  lemma MulAtPieces(s: string, i: nat, num1: string, num2: string)
    requires Numeral(num1) && Numeral(num2) && OccursAt(s, MulText(num1, num2), i)
    ensures OpensAt(s, i)
    ensures NumeralAt(s, i + 4, ',') == Some(num1)
    ensures NumeralAt(s, i + 5 + |num1|, ')') == Some(num2)
  {
    OccursPart(s, "mul(" + num1 + "," + num2, ")", i);
    OccursPart(s, "mul(" + num1 + ",", num2, i);
    OccursPart(s, "mul(" + num1, ",", i);
    OccursPart(s, "mul(", num1, i);
    OpensAtOccurs(s, i);
    NumeralAtFinds(s, i + 4, num1, ',');
    NumeralAtFinds(s, i + 5 + |num1|, num2, ')');
  }

  /** Trying the pattern in a suffix is trying it in the whole text, shifted. */
  lemma MulAtShift(s: string, k: nat, j: nat)
    requires k <= |s|
    ensures MulAt(s[k..], j).Some? <==> MulAt(s, k + j).Some?
    ensures MulAt(s[k..], j).Some? ==>
      MulAt(s[k..], j).value.num1 == MulAt(s, k + j).value.num1 &&
      MulAt(s[k..], j).value.num2 == MulAt(s, k + j).value.num2
  {
    var t := s[k..];
    OpensAtShift(s, k, j);
    if OpensAt(s, k + j) {
      NumeralAtShift(s, k, j + 4, ',');
      var r1 := NumeralAt(s, k + j + 4, ',');
      assert NumeralAt(t, j + 4, ',') == r1;
      if r1.Some? {
        var p := j + 5 + |r1.value|;
        NumeralAtShift(s, k, p, ')');
        var r2 := NumeralAt(s, k + p, ')');
        assert NumeralAt(t, p, ')') == r2;
        if r2.Some? {
          assert MulAt(t, j) == Some(Mul(j, r1.value, r2.value));
          assert MulAt(s, k + j) == Some(Mul(k + j, r1.value, r2.value));
        } else {
          assert MulAt(t, j).None? && MulAt(s, k + j).None?;
        }
      } else {
        assert MulAt(t, j).None? && MulAt(s, k + j).None?;
      }
    } else {
      assert MulAt(t, j).None? && MulAt(s, k + j).None?;
    }
  }

  lemma OpensAtShift(s: string, k: nat, j: nat)
    requires k <= |s|
    ensures OpensAt(s[k..], j) == OpensAt(s, k + j)
  {
    if k + j + 4 <= |s| {
      assert s[k..][j] == s[k + j] && s[k..][j + 1] == s[k + j + 1];
      assert s[k..][j + 2] == s[k + j + 2] && s[k..][j + 3] == s[k + j + 3];
    }
  }

  // ---------------------------------------------------------------------------------
  // The list of matches

  /** Where the leftmost match at or after index i starts: what `match` (or the next
      step of `matchAll`) finds. */
  function FirstMatchAt(s: string, i: nat): (r: Option<nat>)
    ensures r.Some? ==> i <= r.value && MulAt(s, r.value).Some? &&
                        (forall p :: i <= p < r.value ==> MulAt(s, p).None?)
    ensures r.None? ==> forall p :: i <= p ==> MulAt(s, p).None?
    decreases |s| - i
  {
    if i >= |s| then None
    else if MulAt(s, i).Some? then Some(i)
    else FirstMatchAt(s, i + 1)
  }

  /** No match at index |s| or beyond: the text is too short there. */
  lemma NoMatchPastEnd(s: string, p: nat)
    requires p >= |s|
    ensures MulAt(s, p).None?
  {
  }

  /** A match ends inside the text. */
  lemma MatchInside(s: string, m: Mul)
    requires MulAt(s, m.at) == Some(m)
    ensures End(m) <= |s|
  {
  }

  /** The matches from index i on, left to right: each search resumes where the previous
      match ended. */
  function MatchesFrom(s: string, i: nat): (ms: seq<Mul>)
    ensures forall k :: 0 <= k < |ms| ==> WellFormed(ms[k])
    ensures forall k :: 0 <= k < |ms| ==> i <= ms[k].at && End(ms[k]) <= |s|
    ensures forall a, b :: 0 <= a < b < |ms| ==> End(ms[a]) <= ms[b].at
    decreases |s| - i
  {
    match FirstMatchAt(s, i)
    case None => []
    case Some(p) =>
      var m := MulAt(s, p).value;
      [m] + MatchesFrom(s, End(m))
  }

  /** Every entry of the list is what the scanner finds at its index. */
  lemma {:induction false} MatchesFound(s: string, i: nat, k: nat)
    requires k < |MatchesFrom(s, i)|
    ensures MulAt(s, MatchesFrom(s, i)[k].at) == Some(MatchesFrom(s, i)[k])
    decreases |s| - i
  {
    var m := MulAt(s, FirstMatchAt(s, i).value).value;
    if k > 0 {
      MatchesFound(s, End(m), k - 1);
      assert MatchesFrom(s, i)[k] == MatchesFrom(s, End(m))[k - 1];
    }
  }

  /** Every index at or after i where the pattern matches lies within one of the matches
      found: the search misses no match that does not overlap an earlier one. */
  lemma {:induction false} MatchesCover(s: string, i: nat, p: nat)
    requires i <= p && MulAt(s, p).Some?
    ensures exists k :: (0 <= k < |MatchesFrom(s, i)| &&
                         MatchesFrom(s, i)[k].at <= p < End(MatchesFrom(s, i)[k]))
    decreases |s| - i
  {
    var ms := MatchesFrom(s, i);
    var m := MulAt(s, FirstMatchAt(s, i).value).value;
    MatchInside(s, m);
    assert ms[0] == m;
    if End(m) <= p {
      if p >= |s| {
        NoMatchPastEnd(s, p);
      }
      MatchesCover(s, End(m), p);
      var rest := MatchesFrom(s, End(m));
      var k :| 0 <= k < |rest| && rest[k].at <= p < End(rest[k]);
      assert ms[k + 1] == rest[k];
    }
  }

  // ---------------------------------------------------------------------------------
  // Sums of products

  /** The value of a numeral is below 1000. */
  lemma {:induction false} NumeralBelow(d: string)
    requires AllDigits(d)
    ensures DecimalValue(d) < Pow10(|d|)
    decreases |d|
  {
    if d != [] {
      NumeralBelow(d[..|d| - 1]);
    }
  }

  /** A numeral reads as at most 999. */
  lemma NumeralAtMost(d: string)
    requires Numeral(d)
    ensures DecimalValue(d) <= 999
  {
    NumeralBelow(d);
    assert Pow10(1) == 10 && Pow10(2) == 100 && Pow10(3) == 1000;
  }

  lemma ProductAtMost(a: nat, b: nat)
    requires a <= 999 && b <= 999
    ensures a * b <= 998001
  {
    assert a * b <= 999 * b;
  }

  /** `parseInt(num1) * parseInt(num2)`; the scanner builds well-formed matches only,
      and anything else counts 0. */
  function Product(m: Mul): nat
  {
    if WellFormed(m) then DecimalValue(m.num1) * DecimalValue(m.num2) else 0
  }

  /** The product of a match is at most 999 · 999. */
  lemma ProductBound(m: Mul)
    requires WellFormed(m)
    ensures Product(m) <= 998001
  {
    NumeralAtMost(m.num1);
    NumeralAtMost(m.num2);
    ProductAtMost(DecimalValue(m.num1), DecimalValue(m.num2));
  }

  /** The products of some matches added up. */
  function Total(ms: seq<Mul>): nat
  {
    if ms == [] then 0 else Product(ms[0]) + Total(ms[1..])
  }

  /** The sum over well-formed matches is at most 998001 per match. */
  lemma {:induction false} TotalBound(ms: seq<Mul>)
    requires forall k :: 0 <= k < |ms| ==> WellFormed(ms[k])
    ensures Total(ms) <= 998001 * |ms|
  {
    if ms != [] {
      ProductBound(ms[0]);
      TotalBound(ms[1..]);
    }
  }

  /** One step of the search, in terms of the sum: a match at i adds its product and the
      search resumes at its end; otherwise it resumes at the next index. */
  lemma TotalStep(s: string, i: nat)
    requires i < |s|
    ensures MulAt(s, i).Some? ==>
      Total(MatchesFrom(s, i)) == Product(MulAt(s, i).value) + Total(MatchesFrom(s, End(MulAt(s, i).value)))
    ensures MulAt(s, i).None? ==> Total(MatchesFrom(s, i)) == Total(MatchesFrom(s, i + 1))
  {
    if MulAt(s, i).Some? {
      var m := MulAt(s, i).value;
      var rest := MatchesFrom(s, End(m));
      assert MatchesFrom(s, i) == [m] + rest;
      assert ([m] + rest)[1..] == rest;
    } else {
      assert FirstMatchAt(s, i) == FirstMatchAt(s, i + 1);
    }
  }

  /** Matches with the same groups have the same product. */
  lemma SameProduct(m: Mul, n: Mul)
    requires m.num1 == n.num1 && m.num2 == n.num2
    ensures Product(m) == Product(n)
  {
  }

  /** The sum over a text with no `mul(` is 0. */
  lemma NoMulNoSum(s: string)
    requires forall i :: !OccursAt(s, "mul(", i)
    ensures Total(MatchesFrom(s, 0)) == 0
  {
    forall p: nat ensures MulAt(s, p).None? {
      OpensAtOccurs(s, p);
    }
    assert FirstMatchAt(s, 0).None?;
  }

  /** The sum the left-to-right scan accumulates from index i: at a match it adds the
      product and jumps past the match, elsewhere it moves on by one character. */
  function SumFrom(s: string, i: nat): nat
    decreases |s| - i
  {
    if i >= |s| then 0
    else match MulAt(s, i)
      case Some(m) => Product(m) + SumFrom(s, End(m))
      case None => SumFrom(s, i + 1)
  }

  /** The scan's sum is the sum over the list of matches. */
  lemma {:induction false} SumFromTotal(s: string, i: nat)
    ensures SumFrom(s, i) == Total(MatchesFrom(s, i))
    decreases |s| - i
  {
    if i >= |s| {
      assert FirstMatchAt(s, i).None?;
    } else {
      TotalStep(s, i);
      if MulAt(s, i).Some? {
        SumFromTotal(s, End(MulAt(s, i).value));
      } else {
        SumFromTotal(s, i + 1);
      }
    }
  }

  /** The scan passes over indexes where no match starts. */
  lemma {:induction false} SumFromNoMatch(s: string, i: nat, n: nat)
    requires i <= n <= |s|
    requires forall q :: i <= q < n ==> MulAt(s, q).None?
    ensures SumFrom(s, i) == SumFrom(s, n)
    decreases n - i
  {
    if i < n {
      SumFromNoMatch(s, i + 1, n);
    }
  }

  /** Scanning a suffix from index j sums what scanning the whole text from the
      corresponding index sums. */
  lemma {:induction false} SumFromShift(s: string, k: nat, j: nat)
    requires k <= |s|
    ensures SumFrom(s[k..], j) == SumFrom(s, k + j)
    decreases |s| - k - j
  {
    if j < |s| - k {
      MulAtShift(s, k, j);
      if MulAt(s[k..], j).Some? {
        var mt := MulAt(s[k..], j).value;
        var ms := MulAt(s, k + j).value;
        SameProduct(mt, ms);
        SumFromShift(s, k, End(mt));
        assert k + End(mt) == End(ms);
      } else {
        SumFromShift(s, k, j + 1);
      }
    }
  }

  /** Scanning a suffix from its start sums what scanning the whole text from the
      suffix's index sums. */
  lemma SumFromSuffix(s: string, k: nat)
    requires k <= |s|
    ensures SumFrom(s[k..], 0) == SumFrom(s, k)
  {
    SumFromShift(s, k, 0);
  }
}
