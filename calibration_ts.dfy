/** Reading two digits as a number, as `parseInt` and Python's `int` do. */
module DigitPairs {
  import opened Wrappers
  import opened JsText

  /** `parseInt` of two digits: ten times the first plus the second. */
  lemma ParseTwoDigits(ab: string)
    requires |ab| == 2 && IsDigit(ab[0]) && IsDigit(ab[1])
    ensures ParseInt(ab).Some? && ParseInt(ab).value == 10 * DigitValue(ab[0]) + DigitValue(ab[1])
  {
    assert AllDigits(ab);
    ParseIntOfDigits(ab);
    TwoDigitsValue(ab);
  }

  lemma TwoDigitsValue(ab: string)
    requires |ab| == 2 && AllDigits(ab)
    ensures DecimalValue(ab) == 10 * DigitValue(ab[0]) + DigitValue(ab[1])
  {
    assert DecimalValue(ab) == 10 * DecimalValue(ab[..1]) + DigitValue(ab[1]);
    assert DecimalValue(ab[..1]) == DigitValue(ab[0]) by {
      assert ab[..1][..0] == [];
    }
  }
}

/** Day 1 of 2023 (solved_Day1_2023_Example, `index.ts`): the calibration value of a line,
    its first and last digit read as a two-digit number, where part 2 also reads the
    spelled-out digits "one" to "nine". */
module Calibration2023 {
  import opened Wrappers
  import opened JsText
  import opened DigitPairs

  // ---------------------------------------------------------------------------------
  // Part 1: digits only

  /** Where the first decimal digit at or after i lies, if any. */
  function FirstDigitFrom(line: string, i: nat): (r: Option<nat>)
    ensures r.Some? ==> (i <= r.value < |line| && IsDigit(line[r.value]) &&
                         forall j :: i <= j < r.value ==> !IsDigit(line[j]))
    ensures r.None? ==> forall j :: i <= j < |line| ==> !IsDigit(line[j])
    decreases |line| - i
  {
    if i >= |line| then None
    else if IsDigit(line[i]) then Some(i)
    else FirstDigitFrom(line, i + 1)
  }

  /** Where the last decimal digit before n lies, if any. */
  function LastDigitBefore(line: string, n: nat): (r: Option<nat>)
    requires n <= |line|
    ensures r.Some? ==> (r.value < n && IsDigit(line[r.value]) &&
                         forall j :: r.value < j < n ==> !IsDigit(line[j]))
    ensures r.None? ==> forall j :: 0 <= j < n ==> !IsDigit(line[j])
  {
    if n == 0 then None
    else if IsDigit(line[n - 1]) then Some(n - 1)
    else LastDigitBefore(line, n - 1)
  }

  /** `findFirstDigit`: the first match of `/\d/`, or "" when the line has no digit. */
  function FindFirstDigit(line: string): (d: string)
    ensures d == "" <==> forall j :: 0 <= j < |line| ==> !IsDigit(line[j])
    ensures d != "" ==> exists j :: 0 <= j < |line| && d == [line[j]] && IsDigit(line[j]) &&
                                    forall i :: 0 <= i < j ==> !IsDigit(line[i])
  {
    match FirstDigitFrom(line, 0)
    case None => ""
    case Some(i) => [line[i]]
  }

  /** `findLastDigit`: the last match of `/\d/g`, or "" when the line has no digit. */
  function FindLastDigit(line: string): (d: string)
    ensures d == "" <==> forall j :: 0 <= j < |line| ==> !IsDigit(line[j])
    ensures d != "" ==> exists j :: 0 <= j < |line| && d == [line[j]] && IsDigit(line[j]) &&
                                    forall i :: j < i < |line| ==> !IsDigit(line[i])
  {
    match LastDigitBefore(line, |line|)
    case None => ""
    case Some(i) => [line[i]]
  }

  /** `getCalibrationValue`: 0 for a line with no digit; otherwise the number written by its
      first and its last digit, the same digit twice when there is only one. */
  function CalibrationValue(line: string): (v: nat)
    ensures v <= 99
    ensures FindFirstDigit(line) == "" ==> v == 0
    ensures FindFirstDigit(line) != "" ==>
      v == 10 * DigitValue(line[FirstDigitFrom(line, 0).value]) + DigitValue(line[LastDigitBefore(line, |line|).value])
  {
    var first := FindFirstDigit(line);
    var last := FindLastDigit(line);
    if first == "" then 0
    else
      var f := FirstDigitFrom(line, 0).value;
      var l := LastDigitBefore(line, |line|).value;
      assert first == [line[f]] && last == [line[l]];
      var text := first + (if last == "" then first else last);
      assert text == [line[f], line[l]];
      ParseTwoDigits(text);
      ParseInt(text).value
  }

  /** A line whose only digit is d reads as dd. */
  lemma OneDigitTwice(line: string, i: nat)
    requires i < |line| && IsDigit(line[i])
    requires forall j :: 0 <= j < |line| && j != i ==> !IsDigit(line[j])
    ensures CalibrationValue(line) == 11 * DigitValue(line[i])
  {
    assert FirstDigitFrom(line, 0) == Some(i);
    assert LastDigitBefore(line, |line|) == Some(i);
  }

  // ---------------------------------------------------------------------------------
  // Part 2: digits and spelled-out digits

  /** The keys of `numberWords`, in their insertion order; word k spells the digit k + 1. */
  const Words: seq<string> := ["one", "two", "three", "four", "five", "six", "seven", "eight", "nine"]

  /** The values of `numberWords`: the digit character word k spells. */
  const WordDigits: string := "123456789"

  /** The first two letters of a number word tell which word it is. */
  function WordByPrefix(c0: char, c1: char): int {
    if c0 == 'o' then 0
    else if c0 == 't' then (if c1 == 'w' then 1 else 2)
    else if c0 == 'f' then (if c1 == 'o' then 3 else 4)
    else if c0 == 's' then (if c1 == 'i' then 5 else 6)
    else if c0 == 'e' then 7
    else 8
  }

  lemma WordsFacts(k: nat)
    requires k < |Words|
    ensures |Words[k]| >= 3 && WordByPrefix(Words[k][0], Words[k][1]) == k
    ensures !IsDigit(Words[k][0]) && IsDigit(WordDigits[k]) && DigitValue(WordDigits[k]) == k + 1
  {
    assert k == 0 || k == 1 || k == 2 || k == 3 || k == 4 || k == 5 || k == 6 || k == 7 || k == 8;
  }

  /** At most one number word starts at any index. */
  lemma WordsUnique(line: string, i: int, a: nat, b: nat)
    requires a < |Words| && b < |Words| && OccursAt(line, Words[a], i) && OccursAt(line, Words[b], i)
    ensures a == b
  {
    WordsFacts(a);
    WordsFacts(b);
    assert line[i] == line[i..i + |Words[a]|][0] == Words[a][0];
    assert line[i + 1] == line[i..i + |Words[a]|][1] == Words[a][1];
    assert line[i] == line[i..i + |Words[b]|][0] == Words[b][0];
    assert line[i + 1] == line[i..i + |Words[b]|][1] == Words[b][1];
  }

  lemma WordNotDigit(line: string, i: int, k: nat)
    requires k < |Words| && OccursAt(line, Words[k], i)
    ensures 0 <= i < |line| && !IsDigit(line[i])
  {
    WordsFacts(k);
    assert line[i] == line[i..i + |Words[k]|][0];
  }

  /** Which number word starts at index i: the first from k on, or -1. */
  function WordFrom(line: string, i: int, k: nat): (r: int)
    requires k <= |Words|
    ensures r == -1 || (k <= r < |Words| && OccursAt(line, Words[r], i))
    ensures r == -1 ==> forall j :: k <= j < |Words| ==> !OccursAt(line, Words[j], i)
    decreases |Words| - k
  {
    if k == |Words| then -1
    else if OccursAt(line, Words[k], i) then k
    else WordFrom(line, i, k + 1)
  }

  /** The word found at i is the one that occurs there. */
  lemma WordAt(line: string, i: int, k: nat)
    requires k < |Words| && OccursAt(line, Words[k], i)
    ensures WordFrom(line, i, 0) == k
  {
    var r := WordFrom(line, i, 0);
    assert r != -1;
    WordsUnique(line, i, r, k);
  }

  /** One of the first w number words starts at j. */
  predicate WordBelow(line: string, j: int, w: nat)
    requires w <= |Words|
  {
    exists k {:trigger OccursAt(line, Words[k], j)} :: 0 <= k < w && OccursAt(line, Words[k], j)
  }

  /** Taking word w in adds exactly its occurrences. */
  lemma WordBelowStep(line: string, j: int, w: nat)
    requires w < |Words|
    ensures WordBelow(line, j, w + 1) <==> WordBelow(line, j, w) || OccursAt(line, Words[w], j)
  {
    if WordBelow(line, j, w + 1) && !OccursAt(line, Words[w], j) {
      var k :| 0 <= k < w + 1 && OccursAt(line, Words[k], j);
      assert k < w;
    }
  }

  /** A digit, or the start of a number word, stands at index i. */
  predicate IsToken(line: string, i: int) {
    0 <= i < |line| && (IsDigit(line[i]) || WordBelow(line, i, |Words|))
  }

  /** The digit character a token stands for. */
  function TokenChar(line: string, i: int): (c: char)
    requires IsToken(line, i)
    ensures IsDigit(c)
  {
    if IsDigit(line[i]) then line[i]
    else
      var k := WordFrom(line, i, 0);
      WordsFacts(k);
      WordDigits[k]
  }

  /** The token of word k is its digit. */
  lemma TokenOfWord(line: string, i: int, k: nat)
    requires k < |Words| && OccursAt(line, Words[k], i)
    ensures IsToken(line, i) && TokenChar(line, i) == WordDigits[k]
  {
    WordNotDigit(line, i, k);
    WordAt(line, i, k);
  }

  /** Where the first token at or after i starts. */
  function FirstTokenFrom(line: string, i: nat): (r: Option<nat>)
    ensures r.Some? ==> (i <= r.value && IsToken(line, r.value) &&
                         forall j :: i <= j < r.value ==> !IsToken(line, j))
    ensures r.None? ==> forall j :: i <= j ==> !IsToken(line, j)
    decreases |line| - i
  {
    if i >= |line| then None
    else if IsToken(line, i) then Some(i)
    else FirstTokenFrom(line, i + 1)
  }

  /** Where the last token before n starts. */
  function LastTokenBefore(line: string, n: nat): (r: Option<nat>)
    requires n <= |line|
    ensures r.Some? ==> (r.value < n && IsToken(line, r.value) &&
                         forall j :: r.value < j < n ==> !IsToken(line, j))
    ensures r.None? ==> forall j :: 0 <= j < n ==> !IsToken(line, j)
  {
    if n == 0 then None
    else if IsToken(line, n - 1) then Some(n - 1)
    else LastTokenBefore(line, n - 1)
  }

  /** The calibration value with spelled-out digits: 0 with no token, else the digits of the
      first and the last token. */
  function Calibration(line: string): (v: nat)
    ensures v <= 99
    ensures FirstTokenFrom(line, 0).None? <==> LastTokenBefore(line, |line|).None?
    ensures FirstTokenFrom(line, 0).None? ==> v == 0
  {
    match FirstTokenFrom(line, 0)
    case None => 0
    case Some(f) =>
      var l := LastTokenBefore(line, |line|);
      assert l.Some?;
      10 * DigitValue(TokenChar(line, f)) + DigitValue(TokenChar(line, l.value))
  }

  /** The first token is the one with no token before it. */
  lemma FirstTokenIs(line: string, f: nat)
    requires IsToken(line, f) && forall j :: 0 <= j < f ==> !IsToken(line, j)
    ensures FirstTokenFrom(line, 0).Some? && FirstTokenFrom(line, 0).value == f
  {
    var r := FirstTokenFrom(line, 0);
    assert r.Some? && r.value <= f;
  }

  /** The last token is the one with no token after it. */
  lemma LastTokenIs(line: string, l: nat)
    requires IsToken(line, l) && forall j :: l < j < |line| ==> !IsToken(line, j)
    ensures LastTokenBefore(line, |line|).Some? && LastTokenBefore(line, |line|).value == l
  {
    LastTokenBelow(line, |line|, l);
  }

  lemma {:induction false} LastTokenBelow(line: string, n: nat, l: nat)
    requires l < n <= |line| && IsToken(line, l)
    requires forall j :: l < j < n ==> !IsToken(line, j)
    ensures LastTokenBefore(line, n) == Some(l)
    decreases n
  {
    if n - 1 != l {
      LastTokenBelow(line, n - 1, l);
    }
  }

  /** Two lines whose first tokens and last tokens read the same digits have the same value. */
  lemma SameEnds(a: string, b: string, fa: nat, la: nat, fb: nat, lb: nat)
    requires FirstTokenFrom(a, 0) == Some(fa) && LastTokenBefore(a, |a|) == Some(la)
    requires FirstTokenFrom(b, 0) == Some(fb) && LastTokenBefore(b, |b|) == Some(lb)
    requires TokenChar(a, fa) == TokenChar(b, fb) && TokenChar(a, la) == TokenChar(b, lb)
    ensures Calibration(a) == Calibration(b)
  {
  }

  /** A line with a single token reads as that digit twice. */
  lemma SingleToken(line: string, i: nat)
    requires IsToken(line, i) && forall j :: IsToken(line, j) ==> j == i
    ensures Calibration(line) == 11 * DigitValue(TokenChar(line, i))
  {
    assert FirstTokenFrom(line, 0) == Some(i);
    assert LastTokenBefore(line, |line|) == Some(i);
  }

  /** "7" reads as 77 and "eightwo" as 82: overlapping words both count. */
  lemma Examples()
    ensures Calibration("7") == 77
    ensures Calibration("eightwo") == 82
  {
    SingleToken("7", 0);
    var line := "eightwo";
    assert OccursAt(line, Words[7], 0);
    TokenOfWord(line, 0, 7);
    assert OccursAt(line, Words[1], 4);
    TokenOfWord(line, 4, 1);
    forall j | 4 < j < |line| ensures !IsToken(line, j) {
      forall k | 0 <= k < |Words| ensures !OccursAt(line, Words[k], j) {
        WordsFacts(k);
      }
    }
    assert FirstTokenFrom(line, 0) == Some(0);
    assert LastTokenBefore(line, |line|) == Some(4);
  }

  /** A digit, or the start of one of the first w number words, stands at index j. */
  predicate Seen(line: string, j: int, w: nat)
    requires w <= |Words|
  {
    0 <= j < |line| && (IsDigit(line[j]) || WordBelow(line, j, w))
  }

  /** Taking word w in adds exactly its occurrences. */
  lemma SeenStep(line: string, j: int, w: nat)
    requires w < |Words|
    ensures Seen(line, j, w + 1) <==> Seen(line, j, w) || OccursAt(line, Words[w], j)
  {
    WordBelowStep(line, j, w);
    if OccursAt(line, Words[w], j) {
      WordNotDigit(line, j, w);
    }
  }

  /** The state of `findFirstDigitOrWord` after the digit and w words: the index is the
      earliest of those tokens (`Infinity` as None) and the digit is that token's. */
  ghost predicate FirstSoFar(line: string, firstIndex: Option<nat>, firstDigit: string, w: nat)
    requires w <= |Words|
  {
    match firstIndex
    case None => firstDigit == "" && forall j :: !Seen(line, j, w)
    case Some(f) =>
      Seen(line, f, w) && (forall j :: 0 <= j < f ==> !Seen(line, j, w)) &&
      IsToken(line, f) && firstDigit == [TokenChar(line, f)]
  }

  /** The state of `findLastDigitOrWord` after the digit and w words: the index is the
      latest of those tokens (-1 when none) and the digit is that token's. */
  ghost predicate LastSoFar(line: string, lastIndex: int, lastDigit: string, w: nat)
    requires w <= |Words|
  {
    if lastIndex == -1 then lastDigit == "" && forall j :: !Seen(line, j, w)
    else
      Seen(line, lastIndex, w) && (forall j :: lastIndex < j ==> !Seen(line, j, w)) &&
      IsToken(line, lastIndex) && lastDigit == [TokenChar(line, lastIndex)]
  }

  /** One pass of the word loop of `findFirstDigitOrWord`: a word found strictly before the
      recorded index takes its place. */
  lemma FirstTurn(line: string, firstIndex: Option<nat>, firstDigit: string, w: nat)
    requires w < |Words| && FirstSoFar(line, firstIndex, firstDigit, w)
    ensures var wordIndex := IndexOf(line, Words[w], 0);
      if wordIndex != -1 && (firstIndex.None? || wordIndex < firstIndex.value)
      then FirstSoFar(line, Some(wordIndex), [WordDigits[w]], w + 1)
      else FirstSoFar(line, firstIndex, firstDigit, w + 1)
  {
    var wordIndex := IndexOf(line, Words[w], 0);
    if wordIndex != -1 && (firstIndex.None? || wordIndex < firstIndex.value) {
      TokenOfWord(line, wordIndex, w);
      SeenStep(line, wordIndex, w);
      var next := w + 1;
      forall j | 0 <= j < wordIndex ensures !Seen(line, j, next) {
        SeenStep(line, j, w);
      }
    } else if firstIndex.None? {
      var next := w + 1;
      forall j ensures !Seen(line, j, next) {
        SeenStep(line, j, w);
      }
    } else {
      SeenStep(line, firstIndex.value, w);
      var next := w + 1;
      forall j | 0 <= j < firstIndex.value ensures !Seen(line, j, next) {
        SeenStep(line, j, w);
      }
    }
  }

  /** One pass of the word loop of `findLastDigitOrWord`: a word whose last occurrence lies
      strictly after the recorded index takes its place. */
  lemma LastTurn(line: string, lastIndex: int, lastDigit: string, w: nat)
    requires w < |Words| && LastSoFar(line, lastIndex, lastDigit, w)
    ensures var wordIndex := LastIndexOf(line, Words[w]);
      if wordIndex != -1 && wordIndex > lastIndex
      then LastSoFar(line, wordIndex, [WordDigits[w]], w + 1)
      else LastSoFar(line, lastIndex, lastDigit, w + 1)
  {
    var wordIndex := LastIndexOf(line, Words[w]);
    var next := w + 1;
    if wordIndex != -1 && wordIndex > lastIndex {
      TokenOfWord(line, wordIndex, w);
      SeenStep(line, wordIndex, w);
      forall j | wordIndex < j ensures !Seen(line, j, next) {
        SeenStep(line, j, w);
      }
    } else if lastIndex == -1 {
      forall j ensures !Seen(line, j, next) {
        SeenStep(line, j, w);
      }
    } else {
      SeenStep(line, lastIndex, w);
      forall j | lastIndex < j ensures !Seen(line, j, next) {
        SeenStep(line, j, w);
      }
    }
  }

  /** With every word taken in, the earliest token seen is the first token. */
  lemma FirstDone(line: string, firstIndex: Option<nat>, firstDigit: string)
    requires FirstSoFar(line, firstIndex, firstDigit, |Words|)
    ensures firstIndex == FirstTokenFrom(line, 0)
  {
    var r := FirstTokenFrom(line, 0);
    if r.Some? {
      assert Seen(line, r.value, |Words|);
    }
  }

  /** With every word taken in, the latest token seen is the last token. */
  lemma LastDone(line: string, lastIndex: int)
    requires lastIndex == -1 ==> forall j :: !Seen(line, j, |Words|)
    requires lastIndex != -1 ==> Seen(line, lastIndex, |Words|) &&
                                 forall j :: lastIndex < j ==> !Seen(line, j, |Words|)
    ensures lastIndex == -1 <==> LastTokenBefore(line, |line|).None?
    ensures lastIndex != -1 ==> lastIndex == LastTokenBefore(line, |line|).value
  {
    var r := LastTokenBefore(line, |line|);
    if r.Some? {
      assert Seen(line, r.value, |Words|);
    }
    if lastIndex != -1 {
      assert IsToken(line, lastIndex);
    }
  }

  /** `findFirstDigitOrWord`: the first digit sets the starting index, then each word's
      first occurrence replaces it when strictly earlier. The result is the digit of the
      first token, or "" when there is none. */
  method FindFirstDigitOrWord(line: string) returns (firstDigit: string)
    ensures FirstTokenFrom(line, 0).None? ==> firstDigit == ""
    ensures FirstTokenFrom(line, 0).Some? ==> firstDigit == [TokenChar(line, FirstTokenFrom(line, 0).value)]
  {
    var firstIndex: Option<nat> := None;
    firstDigit := "";
    var digitMatch := FindFirstDigit(line);
    if digitMatch != "" {
      var d := FirstDigitFrom(line, 0).value;
      assert digitMatch == line[d..d + 1];
      var at := IndexOf(line, digitMatch, 0);
      assert at != -1 && at <= d by {
        assert OccursAt(line, digitMatch, d);
      }
      assert line[at] == line[at..at + 1][0];
      firstIndex := Some(at);
      firstDigit := digitMatch;
    }
    for w := 0 to |Words|
      invariant FirstSoFar(line, firstIndex, firstDigit, w)
    {
      FirstTurn(line, firstIndex, firstDigit, w);
      var wordIndex := IndexOf(line, Words[w], 0);
      if wordIndex != -1 && (firstIndex.None? || wordIndex < firstIndex.value) {
        firstIndex := Some(wordIndex);
        firstDigit := [WordDigits[w]];
      }
    }
    FirstDone(line, firstIndex, firstDigit);
  }

  /** `findLastDigitOrWord`: the last digit sets the starting index, then each word's last
      occurrence replaces it when strictly later. The result is the digit of the last
      token, or "" when there is none. */
  method FindLastDigitOrWord(line: string) returns (lastDigit: string)
    ensures LastTokenBefore(line, |line|).None? ==> lastDigit == ""
    ensures LastTokenBefore(line, |line|).Some? ==>
      lastDigit == [TokenChar(line, LastTokenBefore(line, |line|).value)]
  {
    var lastIndex := -1;
    lastDigit := "";
    var digitMatches := LastDigitBefore(line, |line|);
    if digitMatches.Some? {
      lastIndex := digitMatches.value;
      lastDigit := [line[lastIndex]];
    }
    for w := 0 to |Words|
      invariant LastSoFar(line, lastIndex, lastDigit, w)
    {
      LastTurn(line, lastIndex, lastDigit, w);
      var wordIndex := LastIndexOf(line, Words[w]);
      if wordIndex != -1 && wordIndex > lastIndex {
        lastIndex := wordIndex;
        lastDigit := [WordDigits[w]];
      }
    }
    LastDone(line, lastIndex);
  }

  /** The digits the two searches return, put together, read as the value of the line. */
  lemma ReadTokens(line: string, firstDigit: string, lastDigit: string)
    requires FirstTokenFrom(line, 0).None? ==> firstDigit == ""
    requires FirstTokenFrom(line, 0).Some? ==> firstDigit == [TokenChar(line, FirstTokenFrom(line, 0).value)]
    requires LastTokenBefore(line, |line|).None? ==> lastDigit == ""
    requires LastTokenBefore(line, |line|).Some? ==>
      lastDigit == [TokenChar(line, LastTokenBefore(line, |line|).value)]
    ensures firstDigit == "" <==> Calibration(line) == 0 && FirstTokenFrom(line, 0).None?
    ensures firstDigit != "" ==>
      (|firstDigit| == 1 && |lastDigit| == 1 && IsDigit(firstDigit[0]) && IsDigit(lastDigit[0]) &&
       Calibration(line) == 10 * DigitValue(firstDigit[0]) + DigitValue(lastDigit[0]))
  {
    match FirstTokenFrom(line, 0)
    case None =>
    case Some(f) =>
      var l := LastTokenBefore(line, |line|).value;
      assert firstDigit == [TokenChar(line, f)] && lastDigit == [TokenChar(line, l)];
  }

  /** `getCalibrationValuePart2`: the value of the first and last tokens. */
  method GetCalibrationValuePart2(line: string) returns (value: nat)
    ensures value == Calibration(line)
  {
    var firstDigit := FindFirstDigitOrWord(line);
    var lastDigit := FindLastDigitOrWord(line);
    ReadTokens(line, firstDigit, lastDigit);
    if firstDigit == "" {
      return 0;
    }
    var text := firstDigit + (if lastDigit == "" then firstDigit else lastDigit);
    assert text[0] == firstDigit[0] && text[1] == lastDigit[0];
    ParseTwoDigits(text);
    value := ParseInt(text).value;
  }

  /** On a line that spells no number, part 2 reads the same value as part 1. */
  lemma NoWordsSameValue(line: string)
    requires forall k, i :: 0 <= k < |Words| ==> !OccursAt(line, Words[k], i)
    ensures Calibration(line) == CalibrationValue(line)
  {
    forall j ensures IsToken(line, j) <==> 0 <= j < |line| && IsDigit(line[j]) {
      assert !WordBelow(line, j, |Words|);
    }
    match FirstDigitFrom(line, 0)
    case None =>
      assert FirstTokenFrom(line, 0).None?;
    case Some(f) =>
      var l := LastDigitBefore(line, |line|).value;
      FirstTokenIs(line, f);
      LastTokenIs(line, l);
  }

  // ---------------------------------------------------------------------------------
  // The two answers

  /** The lines `solve_pt1` and `solve_pt2` keep: those that are not blank once trimmed. */
  function NonBlank(lines: seq<string>): (kept: seq<string>)
    ensures |kept| <= |lines|
    ensures forall line :: line in kept <==> line in lines && Trim(line) != ""
  {
    if lines == [] then []
    else if Trim(lines[|lines| - 1]) == "" then NonBlank(lines[..|lines| - 1])
    else NonBlank(lines[..|lines| - 1]) + [lines[|lines| - 1]]
  }

  /** The sum of the part-1 values of some lines. */
  function SumPt1(lines: seq<string>): (total: nat)
    ensures total <= 99 * |lines|
  {
    if lines == [] then 0 else SumPt1(lines[..|lines| - 1]) + CalibrationValue(lines[|lines| - 1])
  }

  /** The sum of the part-2 values of some lines. */
  function SumPt2(lines: seq<string>): (total: nat)
    ensures total <= 99 * |lines|
  {
    if lines == [] then 0 else SumPt2(lines[..|lines| - 1]) + Calibration(lines[|lines| - 1])
  }

  /** `solve_pt1` on the file's text: at most 99 for each line kept. */
  function SolvePt1(data: string): (sum: nat)
    ensures sum <= 99 * |Split(data, "\n")|
  {
    SumPt1(NonBlank(Split(data, "\n")))
  }

  /** `solve_pt2` on the file's text: the part-2 values of the kept lines added up. */
  method SolvePt2(data: string) returns (sum: nat)
    ensures sum == SumPt2(NonBlank(Split(data, "\n")))
    ensures sum <= 99 * |Split(data, "\n")|
  {
    var lines := NonBlank(Split(data, "\n"));
    sum := 0;
    for i := 0 to |lines|
      invariant sum == SumPt2(lines[..i])
    {
      var value := GetCalibrationValuePart2(lines[i]);
      assert lines[..i + 1][..i] == lines[..i];
      sum := sum + value;
    }
    assert lines[..|lines|] == lines;
  }

  /** When no line spells a number, the two parts give the same sum. */
  lemma {:induction false} NoWordsSameSum(lines: seq<string>)
    requires forall n, k, i :: 0 <= n < |lines| && 0 <= k < |Words| ==> !OccursAt(lines[n], Words[k], i)
    ensures SumPt1(lines) == SumPt2(lines)
  {
    if lines != [] {
      var init := lines[..|lines| - 1];
      forall n, k, i | 0 <= n < |init| && 0 <= k < |Words| ensures !OccursAt(init[n], Words[k], i) {
        assert init[n] == lines[n];
      }
      NoWordsSameSum(init);
      NoWordsSameValue(lines[|lines| - 1]);
    }
  }
}
