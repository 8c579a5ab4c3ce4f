/** Day 1 of 2023 in Python (`calibration_part2.py`): every digit and every spelled-out
    digit is recorded by its position, and the earliest and the latest are read as a
    two-digit number. It reads every line exactly as the TypeScript part 2 does. */
module Calibration2023Py {
  import opened Wrappers
  import opened JsText
  import opened DigitPairs
  import opened Calibration2023

  // ---------------------------------------------------------------------------------
  // `str.strip()`

  /** Python's `str.isspace`, the characters `strip()` removes. */
  predicate IsPyWhitespace(c: char) {
    ('\t' <= c <= '\r') || ('\U{001C}' <= c <= '\U{001F}') || c == ' ' || c == '\U{0085}'
    || c == '\U{00A0}' || c == '\U{1680}' || ('\U{2000}' <= c <= '\U{200A}')
    || c == '\U{2028}' || c == '\U{2029}' || c == '\U{202F}' || c == '\U{205F}' || c == '\U{3000}'
  }

  /** `s` without its leading whitespace. */
  function PyStripStart(s: string): (r: string)
    ensures |r| <= |s| && r == s[|s| - |r|..]
    ensures r == [] || !IsPyWhitespace(r[0])
    ensures forall i :: 0 <= i < |s| - |r| ==> IsPyWhitespace(s[i])
  {
    if s != [] && IsPyWhitespace(s[0]) then PyStripStart(s[1..]) else s
  }

  /** `s` without its trailing whitespace. */
  function PyStripEnd(s: string): (r: string)
    ensures |r| <= |s| && r == s[..|r|]
    ensures r == [] || !IsPyWhitespace(r[|r| - 1])
    ensures forall i :: |r| <= i < |s| ==> IsPyWhitespace(s[i])
  {
    if s != [] && IsPyWhitespace(s[|s| - 1]) then PyStripEnd(s[..|s| - 1]) else s
  }

  /** `line.strip()`: no whitespace left at either end. */
  function PyStrip(s: string): (r: string)
    ensures |r| <= |s|
    ensures r == [] || (!IsPyWhitespace(r[0]) && !IsPyWhitespace(r[|r| - 1]))
  {
    PyStripEnd(PyStripStart(s))
  }

  // ---------------------------------------------------------------------------------
  // `find_calibration_value`

  /** Every recorded position holds a token, recorded as that token's digit. */
  ghost predicate Faithful(line: string, positions: map<int, char>) {
    forall j :: j in positions ==> IsToken(line, j) && positions[j] == TokenChar(line, j)
  }

  /** The positions recorded are exactly the tokens, each with its digit. */
  ghost predicate Recorded(line: string, positions: map<int, char>) {
    Faithful(line, positions) && forall j :: j in positions <==> IsToken(line, j)
  }

  /** One find of word w at or after pos: recording it moves the search past it. */
  lemma RecordWord(line: string, positions: map<int, char>, w: nat, pos: nat, found: int)
    requires w < |Words| && Faithful(line, positions)
    requires forall j :: j in positions <==> WordBelow(line, j, w) || (j < pos && OccursAt(line, Words[w], j))
    requires found == IndexOf(line, Words[w], pos) && found != -1
    ensures found + 1 <= |line| && Faithful(line, positions[found := WordDigits[w]])
    ensures forall j :: j in positions[found := WordDigits[w]] <==>
      WordBelow(line, j, w) || (j < found + 1 && OccursAt(line, Words[w], j))
  {
    WordsFacts(w);
    TokenOfWord(line, found, w);
  }

  /** The last find of word w came back -1: every occurrence of it is recorded. */
  lemma WordDone(line: string, positions: map<int, char>, w: nat, pos: nat)
    requires w < |Words|
    requires forall j :: j in positions <==> WordBelow(line, j, w) || (j < pos && OccursAt(line, Words[w], j))
    requires IndexOf(line, Words[w], pos) == -1
    ensures forall j :: j in positions <==> WordBelow(line, j, w + 1)
  {
    var next := w + 1;
    forall j ensures j in positions <==> WordBelow(line, j, next) {
      WordBelowStep(line, j, w);
    }
  }

  /** Words and digits together are the tokens. */
  lemma AllRecorded(line: string, positions: map<int, char>)
    requires Faithful(line, positions)
    requires forall j :: j in positions <==> WordBelow(line, j, |Words|) || (0 <= j < |line| && IsDigit(line[j]))
    ensures Recorded(line, positions)
  {
    forall j ensures j in positions <==> IsToken(line, j) {
      if WordBelow(line, j, |Words|) {
        var k :| 0 <= k < |Words| && OccursAt(line, Words[k], j);
        WordNotDigit(line, j, k);
      }
    }
  }

  /** No position recorded: the line has no token. */
  lemma NothingRecorded(line: string, positions: map<int, char>)
    requires Recorded(line, positions) && |positions| == 0
    ensures Calibration(line) == 0
  {
  }

  /** A map with no key is empty. */
  lemma NoKeys(m: map<int, char>)
    requires forall j :: j !in m
    ensures |m| == 0
  {
    assert m.Keys == {} by {
      forall j | j in m.Keys ensures false { }
    }
    assert |m| == |m.Keys|;
  }

  /** Some position recorded: the first and the last token are the least and the greatest. */
  lemma Extremes(line: string, positions: map<int, char>)
    requires Recorded(line, positions) && |positions| != 0
    ensures FirstTokenFrom(line, 0).Some? && LastTokenBefore(line, |line|).Some?
    ensures var f := FirstTokenFrom(line, 0).value;
      f in positions && forall k :: k in positions ==> f <= k
    ensures var l := LastTokenBefore(line, |line|).value;
      l in positions && forall k :: k in positions ==> k <= l
  {
    if FirstTokenFrom(line, 0).None? {
      forall j ensures j !in positions {
        assert !IsToken(line, j);
      }
      NoKeys(positions);
    }
  }

  /** The least and the greatest position read as two digits make the calibration value. */
  lemma ReadEnds(line: string, positions: map<int, char>, first: int, last: int)
    requires Recorded(line, positions) && first in positions && last in positions
    requires forall k :: k in positions ==> first <= k <= last
    ensures AllDigits([positions[first]] + [positions[last]])
    ensures DecimalValue([positions[first]] + [positions[last]]) == Calibration(line)
  {
    Extremes(line, positions);
    var text := [positions[first]] + [positions[last]];
    TwoDigitsValue(text);
  }

  /** `find_calibration_value`: record the position of every occurrence of every word,
      overlapping ones included, and of every digit; then read the digits at the smallest
      and the largest position. This is the value `getCalibrationValuePart2` computes. */
  method FindCalibrationValue(line: string) returns (value: nat)
    ensures value == Calibration(line)
  {
    var positions: map<int, char> := map[];
    for w := 0 to |Words|
      invariant Faithful(line, positions)
      invariant forall j :: j in positions <==> WordBelow(line, j, w)
    {
      var pos := 0;
      while true
        invariant 0 <= pos <= |line|
        invariant Faithful(line, positions)
        invariant forall j :: j in positions <==> WordBelow(line, j, w) || (j < pos && OccursAt(line, Words[w], j))
        decreases |line| - pos
      {
        var found := IndexOf(line, Words[w], pos);
        if found == -1 {
          break;
        }
        RecordWord(line, positions, w, pos, found);
        positions := positions[found := WordDigits[w]];
        pos := found + 1;
      }
      WordDone(line, positions, w, pos);
    }
    for i := 0 to |line|
      invariant Faithful(line, positions)
      invariant forall j :: j in positions <==> WordBelow(line, j, |Words|) || (0 <= j < i && IsDigit(line[j]))
    {
      if IsDigit(line[i]) {
        positions := positions[i := line[i]];
      }
    }
    AllRecorded(line, positions);
    if |positions| == 0 {
      NothingRecorded(line, positions);
      return 0;
    }
    Extremes(line, positions);
    var first :| first in positions && forall k :: k in positions ==> first <= k;
    var last :| last in positions && forall k :: k in positions ==> k <= last;
    ReadEnds(line, positions, first, last);
    value := DecimalValue([positions[first]] + [positions[last]]);
  }

  // ---------------------------------------------------------------------------------
  // `process_calibration_file`

  /** What one line of the file adds: nothing when it is blank once stripped. */
  function LineValue(line: string): (v: nat)
    ensures v <= 99
  {
    var stripped := PyStrip(line);
    if stripped == "" then 0 else Calibration(stripped)
  }

  /** The values of some lines added up. */
  function PyTotal(lines: seq<string>): (total: nat)
    ensures total <= 99 * |lines|
  {
    if lines == [] then 0 else PyTotal(lines[..|lines| - 1]) + LineValue(lines[|lines| - 1])
  }

  /** `process_calibration_file` on the file's text: each line stripped, blank ones skipped,
      the rest added up. */
  method ProcessCalibrationFile(text: string) returns (total: nat)
    ensures total == PyTotal(Split(text, "\n"))
    ensures total <= 99 * |Split(text, "\n")|
    ensures total == SumPt2(NonBlank(Split(text, "\n")))
  {
    total := ProcessLines(Split(text, "\n"));
    SameTotals(Split(text, "\n"));
  }

  /** The loop over the file's lines. */
  method ProcessLines(lines: seq<string>) returns (total: nat)
    ensures total == PyTotal(lines)
  {
    total := 0;
    for i := 0 to |lines|
      invariant total == PyTotal(lines[..i])
    {
      assert lines[..i + 1][..i] == lines[..i];
      var line := PyStrip(lines[i]);
      if line != "" {
        var value := FindCalibrationValue(line);
        total := total + value;
      }
    }
    assert lines[..|lines|] == lines;
  }

  // ---------------------------------------------------------------------------------
  // Agreement with the TypeScript part 2

  /** Neither a digit nor a lowercase letter: no token reads it. */
  predicate Inert(c: char) {
    !IsDigit(c) && !('a' <= c <= 'z')
  }

  lemma WordLetters(k: nat, m: int)
    requires k < |Words| && 0 <= m < |Words[k]|
    ensures 'a' <= Words[k][m] <= 'z'
  {
    assert k == 0 || k == 1 || k == 2 || k == 3 || k == 4 || k == 5 || k == 6 || k == 7 || k == 8;
  }

  /** A token after inert characters is still a token, with the same digit. */
  lemma TokenKeptAfterPrefix(x: string, y: string, j: int)
    requires forall m :: 0 <= m < |x| ==> Inert(x[m])
    requires IsToken(y, j)
    ensures IsToken(x + y, j + |x|) && TokenChar(x + y, j + |x|) == TokenChar(y, j)
  {
    var s := x + y;
    var i := j + |x|;
    assert s[i] == y[j];
    if IsDigit(y[j]) {
      assert TokenChar(s, i) == s[i];
    } else {
      var k :| 0 <= k < |Words| && OccursAt(y, Words[k], j);
      assert OccursAt(s, Words[k], i) by {
        assert s[i..i + |Words[k]|] == y[j..j + |Words[k]|];
      }
      TokenOfWord(s, i, k);
      TokenOfWord(y, j, k);
    }
  }

  /** No token starts among inert characters in front. */
  lemma TokenAfterPrefix(x: string, y: string, i: int)
    requires forall m :: 0 <= m < |x| ==> Inert(x[m])
    requires IsToken(x + y, i)
    ensures i >= |x| && IsToken(y, i - |x|)
  {
    var s := x + y;
    if IsDigit(s[i]) {
      assert s[i] == y[i - |x|];
    } else {
      var k :| 0 <= k < |Words| && OccursAt(s, Words[k], i);
      WordsFacts(k);
      WordLetters(k, 0);
      assert s[i] == s[i..i + |Words[k]|][0];
      assert OccursAt(y, Words[k], i - |x|) by {
        assert y[i - |x|..i - |x| + |Words[k]|] == s[i..i + |Words[k]|];
      }
      WordAt(y, i - |x|, k);
    }
  }

  /** Inert characters in front shift the tokens and change none of them. */
  lemma TokensAfterPrefix(x: string, y: string, i: int)
    requires forall m :: 0 <= m < |x| ==> Inert(x[m])
    ensures IsToken(x + y, i) <==> (i >= |x| && IsToken(y, i - |x|))
    ensures IsToken(x + y, i) ==> TokenChar(x + y, i) == TokenChar(y, i - |x|)
  {
    if IsToken(x + y, i) {
      TokenAfterPrefix(x, y, i);
    }
    if i >= |x| && IsToken(y, i - |x|) {
      TokenKeptAfterPrefix(x, y, i - |x|);
    }
  }

  /** A token before inert characters is still a token, with the same digit. */
  lemma TokenKeptBeforeSuffix(y: string, z: string, i: int)
    requires forall m :: 0 <= m < |z| ==> Inert(z[m])
    requires IsToken(y, i)
    ensures IsToken(y + z, i) && TokenChar(y + z, i) == TokenChar(y, i)
  {
    var s := y + z;
    assert s[i] == y[i];
    if !IsDigit(y[i]) {
      var k :| 0 <= k < |Words| && OccursAt(y, Words[k], i);
      assert OccursAt(s, Words[k], i) by {
        assert s[i..i + |Words[k]|] == y[i..i + |Words[k]|];
      }
      TokenOfWord(s, i, k);
      TokenOfWord(y, i, k);
    }
  }

  /** No token reaches into inert characters behind. */
  lemma TokenBeforeSuffix(y: string, z: string, i: int)
    requires forall m :: 0 <= m < |z| ==> Inert(z[m])
    requires IsToken(y + z, i)
    ensures IsToken(y, i)
  {
    var s := y + z;
    if IsDigit(s[i]) {
      assert i < |y| && s[i] == y[i];
    } else {
      var k :| 0 <= k < |Words| && OccursAt(s, Words[k], i);
      var w := Words[k];
      assert i + |w| <= |y| by {
        if i + |w| > |y| {
          var m := if i >= |y| then 0 else |y| - i;
          WordLetters(k, m);
        }
      }
      assert OccursAt(y, w, i) by {
        assert y[i..i + |w|] == s[i..i + |w|];
      }
      WordNotDigit(y, i, k);
      WordAt(y, i, k);
    }
  }

  /** Inert characters behind change no token. */
  lemma TokensBeforeSuffix(y: string, z: string, i: int)
    requires forall m :: 0 <= m < |z| ==> Inert(z[m])
    ensures IsToken(y + z, i) <==> IsToken(y, i)
    ensures IsToken(y, i) ==> TokenChar(y + z, i) == TokenChar(y, i)
  {
    if IsToken(y + z, i) {
      TokenBeforeSuffix(y, z, i);
    }
    if IsToken(y, i) {
      TokenKeptBeforeSuffix(y, z, i);
    }
  }

  /** Inert characters in front do not change the calibration value. */
  lemma CalibrationDropPrefix(x: string, y: string)
    requires forall m :: 0 <= m < |x| ==> Inert(x[m])
    ensures Calibration(x + y) == Calibration(y)
  {
    match FirstTokenFrom(y, 0)
    case None =>
      forall j ensures !IsToken(x + y, j) {
        TokensAfterPrefix(x, y, j);
      }
      assert FirstTokenFrom(x + y, 0).None?;
    case Some(f) =>
      var l := LastTokenBefore(y, |y|).value;
      FirstAfterPrefix(x, y, f);
      LastAfterPrefix(x, y, l);
      TokenKeptAfterPrefix(x, y, f);
      TokenKeptAfterPrefix(x, y, l);
      SameEnds(x + y, y, f + |x|, l + |x|, f, l);
  }

  lemma FirstAfterPrefix(x: string, y: string, f: nat)
    requires forall m :: 0 <= m < |x| ==> Inert(x[m])
    requires FirstTokenFrom(y, 0) == Some(f)
    ensures FirstTokenFrom(x + y, 0).Some? && FirstTokenFrom(x + y, 0).value == f + |x|
  {
    var s := x + y;
    var e := f + |x|;
    TokensAfterPrefix(x, y, e);
    assert e - |x| == f;
    forall j | 0 <= j < e ensures !IsToken(s, j) {
      TokensAfterPrefix(x, y, j);
    }
    FirstTokenIs(s, e);
  }

  lemma LastAfterPrefix(x: string, y: string, l: nat)
    requires forall m :: 0 <= m < |x| ==> Inert(x[m])
    requires LastTokenBefore(y, |y|) == Some(l)
    ensures LastTokenBefore(x + y, |x + y|).Some? && LastTokenBefore(x + y, |x + y|).value == l + |x|
  {
    var s := x + y;
    var e := l + |x|;
    TokensAfterPrefix(x, y, e);
    assert e - |x| == l;
    forall j | e < j < |s| ensures !IsToken(s, j) {
      TokensAfterPrefix(x, y, j);
    }
    LastTokenIs(s, e);
  }

  /** Inert characters behind do not change the calibration value. */
  lemma CalibrationDropSuffix(y: string, z: string)
    requires forall m :: 0 <= m < |z| ==> Inert(z[m])
    ensures Calibration(y + z) == Calibration(y)
  {
    var s := y + z;
    match FirstTokenFrom(y, 0)
    case None =>
      forall j ensures !IsToken(s, j) {
        TokensBeforeSuffix(y, z, j);
      }
      assert FirstTokenFrom(s, 0).None?;
    case Some(f) =>
      var l := LastTokenBefore(y, |y|).value;
      TokensBeforeSuffix(y, z, f);
      TokensBeforeSuffix(y, z, l);
      forall j | 0 <= j < f ensures !IsToken(s, j) {
        TokensBeforeSuffix(y, z, j);
      }
      forall j | l < j < |s| ensures !IsToken(s, j) {
        TokensBeforeSuffix(y, z, j);
      }
      FirstTokenIs(s, f);
      LastTokenIs(s, l);
      SameEnds(s, y, f, l, f, l);
  }

  /** Leading whitespace does not change the value of a line. */
  lemma StripStartKeeps(line: string)
    ensures Calibration(PyStripStart(line)) == Calibration(line)
  {
    var t := PyStripStart(line);
    var lead := line[..|line| - |t|];
    assert line == lead + t;
    forall m | 0 <= m < |lead| ensures Inert(lead[m]) {
      assert IsPyWhitespace(line[m]);
    }
    CalibrationDropPrefix(lead, t);
  }

  /** Trailing whitespace does not change the value of a line. */
  lemma StripEndKeeps(t: string)
    ensures Calibration(PyStripEnd(t)) == Calibration(t)
  {
    var r := PyStripEnd(t);
    var trail := t[|r|..];
    assert t == r + trail;
    forall m | 0 <= m < |trail| ensures Inert(trail[m]) {
      assert IsPyWhitespace(t[|r| + m]);
    }
    CalibrationDropSuffix(r, trail);
  }

  /** Stripping a line does not change its value, and a blank line is worth 0. */
  lemma LineValueIsCalibration(line: string)
    ensures LineValue(line) == Calibration(line)
  {
    StripStartKeeps(line);
    StripEndKeeps(PyStripStart(line));
    assert FirstTokenFrom("", 0).None?;
  }

  /** A line the TypeScript filter drops as blank is worth 0. */
  lemma JsBlankIsZero(line: string)
    requires Trim(line) == ""
    ensures Calibration(line) == 0
  {
    assert TrimStart(line) == "";
    forall j | 0 <= j < |line| ensures !IsToken(line, j) {
      assert IsJsWhitespace(line[j]);
      if WordBelow(line, j, |Words|) {
        var k :| 0 <= k < |Words| && OccursAt(line, Words[k], j);
        WordLetters(k, 0);
      }
    }
  }

  /** The TypeScript part 2 and this program give the same total for every file. */
  lemma {:induction false} SameTotals(lines: seq<string>)
    ensures PyTotal(lines) == SumPt2(NonBlank(lines))
  {
    if lines != [] {
      var init := lines[..|lines| - 1];
      var line := lines[|lines| - 1];
      SameTotals(init);
      LineValueIsCalibration(line);
      if Trim(line) == "" {
        JsBlankIsZero(line);
      } else {
        SumPt2Snoc(NonBlank(init), line);
      }
    }
  }

  lemma SumPt2Snoc(lines: seq<string>, line: string)
    ensures SumPt2(lines + [line]) == SumPt2(lines) + Calibration(line)
  {
    assert (lines + [line])[..|lines|] == lines;
  }
}
