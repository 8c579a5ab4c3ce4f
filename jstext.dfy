/** The JavaScript string operations the solvers rely on (`indexOf`, `lastIndexOf`,
    `split` with a string separator, `join`, `trim`, `parseInt(_, 10)`, `String(n)` of a
    non-negative integer), written out over `seq<char>`. */
module JsText {
  import opened Wrappers

  /** The code points `String.prototype.trim` removes: the WhiteSpace and LineTerminator
      productions of ECMAScript (section 12.2 and 12.3 of ECMA-262). */
  predicate IsJsWhitespace(c: char) {
    c == ' ' || c == '\t' || c == '\n' || c == '\r' || c == '\U{000B}' || c == '\U{000C}'
    || c == '\U{00A0}' || c == '\U{FEFF}' || c == '\U{1680}' || ('\U{2000}' <= c <= '\U{200A}')
    || c == '\U{2028}' || c == '\U{2029}' || c == '\U{202F}' || c == '\U{205F}' || c == '\U{3000}'
  }

  predicate IsDigit(c: char) { '0' <= c <= '9' }

  predicate AllDigits(s: string) { forall i :: 0 <= i < |s| ==> IsDigit(s[i]) }

  function DigitValue(c: char): (d: nat)
    requires IsDigit(c)
    ensures d < 10
  {
    c as int - '0' as int
  }

  /** `sub` occurs in `s` starting at index `i`. */
  predicate OccursAt(s: string, sub: string, i: int) {
    0 <= i && i + |sub| <= |s| && s[i..i + |sub|] == sub
  }

  ghost predicate Contains(s: string, sub: string) {
    exists i :: OccursAt(s, sub, i)
  }

  /** `s.indexOf(sub, from)`: the first occurrence at or after `from`, or -1. */
  function IndexOf(s: string, sub: string, from: nat): (r: int)
    ensures r == -1 || (from <= r && OccursAt(s, sub, r))
    ensures forall i :: from <= i && (r == -1 || i < r) ==> !OccursAt(s, sub, i)
    decreases |s| - from
  {
    if from + |sub| > |s| then -1
    else if s[from..from + |sub|] == sub then from
    else IndexOf(s, sub, from + 1)
  }

  /** The last occurrence of `sub` that starts at or before `last`, or -1. */
  function LastIndexAtOrBefore(s: string, sub: string, last: int): (r: int)
    ensures r == -1 || (0 <= r <= last && OccursAt(s, sub, r))
    ensures forall i :: (r < i <= last) ==> !OccursAt(s, sub, i)
    decreases last + 1
  {
    if last < 0 then -1
    else if OccursAt(s, sub, last) then last
    else LastIndexAtOrBefore(s, sub, last - 1)
  }

  /** `s.lastIndexOf(sub)`. */
  function LastIndexOf(s: string, sub: string): (r: int)
    ensures r == -1 || OccursAt(s, sub, r)
    ensures forall i :: r < i ==> !OccursAt(s, sub, i)
  {
    LastIndexAtOrBefore(s, sub, |s| - |sub|)
  }

  /** `parts.join(sep)`. */
  function Join(parts: seq<string>, sep: string): string {
    if |parts| == 0 then ""
    else if |parts| == 1 then parts[0]
    else parts[0] + sep + Join(parts[1..], sep)
  }

  lemma NoOccurrenceInPrefix(s: string, sep: string, i: nat)
    requires i <= |s| && |sep| > 0
    requires forall j :: 0 <= j < i ==> !OccursAt(s, sep, j)
    ensures !Contains(s[..i], sep)
  {
    forall j | OccursAt(s[..i], sep, j)
      ensures false
    {
      assert s[..i][j..j + |sep|] == s[j..j + |sep|];
      assert OccursAt(s, sep, j);
    }
  }

  /** `s.split(sep)` for a non-empty string separator: the pieces between the
      occurrences of `sep`, found left to right without overlap. Joining the pieces with
      `sep` gives back `s`, and no piece contains `sep`. */
  function Split(s: string, sep: string): (parts: seq<string>)
    requires |sep| > 0
    ensures |parts| >= 1
    ensures Join(parts, sep) == s
    ensures forall k :: 0 <= k < |parts| ==> !Contains(parts[k], sep)
    decreases |s|
  {
    var i := IndexOf(s, sep, 0);
    if i < 0 then
      assert !Contains(s, sep);
      [s]
    else
      NoOccurrenceInPrefix(s, sep, i);
      var rest := Split(s[i + |sep|..], sep);
      assert s == s[..i] + sep + s[i + |sep|..];
      [s[..i]] + rest
  }

  /** `split` yields two or more pieces exactly when the separator occurs. */
  lemma SplitContains(s: string, sep: string)
    requires |sep| > 0
    ensures |Split(s, sep)| >= 2 <==> Contains(s, sep)
  {
    var i := IndexOf(s, sep, 0);
    if i >= 0 {
      assert OccursAt(s, sep, i);
    }
  }

  /** Text in which the separator's first character never appears is a single piece. */
  lemma SplitAbsent(s: string, sep: string)
    requires |sep| > 0 && sep[0] !in s
    ensures Split(s, sep) == [s]
  {
    forall j | 0 <= j ensures !OccursAt(s, sep, j) {
      if j + |sep| <= |s| {
        assert s[j..j + |sep|][0] == s[j];
      }
    }
  }

  /** A first piece free of the separator's first character is split off at the
      separator that follows it. */
  lemma SplitFirst(a: string, sep: string, b: string)
    requires |sep| > 0 && sep[0] !in a
    ensures Split(a + sep + b, sep) == [a] + Split(b, sep)
  {
    var s := a + sep + b;
    assert s[|a|..|a| + |sep|] == sep;
    assert OccursAt(s, sep, |a|);
    forall j | 0 <= j < |a| ensures !OccursAt(s, sep, j) {
      if j + |sep| <= |s| {
        assert s[j..j + |sep|][0] == s[j] == a[j];
      }
    }
    var i := IndexOf(s, sep, 0);
    assert i == |a|;
    assert s[..i] == a;
    assert s[i + |sep|..] == b;
  }

  /** Splitting joined pieces gives them back when no piece holds the separator's first
      character. */
  lemma {:induction false} SplitJoin(parts: seq<string>, sep: string)
    requires |sep| > 0 && |parts| >= 1
    requires forall k :: 0 <= k < |parts| ==> sep[0] !in parts[k]
    ensures Split(Join(parts, sep), sep) == parts
  {
    if |parts| == 1 {
      SplitAbsent(parts[0], sep);
    } else {
      SplitJoin(parts[1..], sep);
      SplitFirst(parts[0], sep, Join(parts[1..], sep));
      assert parts == [parts[0]] + parts[1..];
    }
  }

  /** `s` with every `c` removed. */
  function Without(s: string, c: char): (r: string)
    ensures c !in r
  {
    if s == [] then [] else (if s[0] == c then [] else [s[0]]) + Without(s[1..], c)
  }

  lemma {:induction false} WithoutAppend(a: string, b: string, c: char)
    ensures Without(a + b, c) == Without(a, c) + Without(b, c)
    decreases |a|
  {
    if a != [] {
      assert (a + b)[1..] == a[1..] + b;
      WithoutAppend(a[1..], b, c);
    } else {
      assert a + b == b;
    }
  }

  lemma {:induction false} WithoutAbsent(s: string, c: char)
    requires c !in s
    ensures Without(s, c) == s
  {
    if s != [] {
      WithoutAbsent(s[1..], c);
    }
  }

  /** Joining a piece in front of a non-empty list puts the separator between them. */
  lemma JoinCons(p: string, rest: seq<string>, sep: string)
    requires |rest| >= 1
    ensures Join([p] + rest, sep) == p + sep + Join(rest, sep)
  {
    assert ([p] + rest)[1..] == rest;
  }

  /** Joining with no separator and one more piece appends that piece. */
  lemma {:induction false} JoinAppendEmpty(parts: seq<string>, p: string)
    ensures Join(parts + [p], "") == Join(parts, "") + p
    decreases |parts|
  {
    if |parts| == 1 {
      assert (parts + [p])[1..] == [p];
    } else if |parts| > 1 {
      assert parts + [p] == [parts[0]] + (parts[1..] + [p]);
      JoinCons(parts[0], parts[1..] + [p], "");
      JoinAppendEmpty(parts[1..], p);
    }
  }

  /** A one-character separator that does not occur before i is absent from `s[..i]`. */
  lemma CharAbsentBefore(s: string, c: char, i: nat)
    requires i <= |s| && forall j :: 0 <= j < i ==> !OccursAt(s, [c], j)
    ensures c !in s[..i]
  {
    forall j | 0 <= j < i ensures s[j] != c {
      assert !OccursAt(s, [c], j);
      assert s[j..j + 1] == [s[j]];
    }
  }

  /** `s.split(c).join('')` removes every `c` from `s`. */
  lemma {:induction false} JoinSplitOnChar(s: string, c: char)
    ensures Join(Split(s, [c]), "") == Without(s, c)
    decreases |s|
  {
    var i := IndexOf(s, [c], 0);
    if i < 0 {
      CharAbsentBefore(s, c, |s|);
      assert s[..|s|] == s;
      WithoutAbsent(s, c);
    } else {
      var rest := Split(s[i + 1..], [c]);
      assert Split(s, [c]) == [s[..i]] + rest;
      JoinCons(s[..i], rest, "");
      JoinSplitOnChar(s[i + 1..], c);
      CharAbsentBefore(s, c, i);
      WithoutAbsent(s[..i], c);
      assert s[i..i + 1] == [c];
      assert s == s[..i] + [c] + s[i + 1..];
      WithoutAppend(s[..i] + [c], s[i + 1..], c);
      WithoutAppend(s[..i], [c], c);
      assert Without([c], c) == [];
    }
  }

  /** `s.trimStart()`: `s` without its leading whitespace. */
  function TrimStart(s: string): (r: string)
    ensures |r| <= |s| && r == s[|s| - |r|..]
    ensures r == [] || !IsJsWhitespace(r[0])
    ensures forall i :: 0 <= i < |s| - |r| ==> IsJsWhitespace(s[i])
  {
    if s != [] && IsJsWhitespace(s[0]) then TrimStart(s[1..]) else s
  }

  /** `s.trimEnd()`. */
  function TrimEnd(s: string): (r: string)
    ensures |r| <= |s| && r == s[..|r|]
    ensures r == [] || !IsJsWhitespace(r[|r| - 1])
    ensures forall i :: |r| <= i < |s| ==> IsJsWhitespace(s[i])
  {
    if s != [] && IsJsWhitespace(s[|s| - 1]) then TrimEnd(s[..|s| - 1]) else s
  }

  /** `s.trim()`: `s` with no whitespace left at either end. */
  function Trim(s: string): (r: string)
    ensures |r| <= |s|
    ensures r == [] || (!IsJsWhitespace(r[0]) && !IsJsWhitespace(r[|r| - 1]))
  {
    TrimEnd(TrimStart(s))
  }

  /** The longest prefix of `s` made of decimal digits. */
  function LeadingDigits(s: string): (r: string)
    ensures |r| <= |s| && r == s[..|r|] && AllDigits(r)
    ensures |r| < |s| ==> !IsDigit(s[|r|])
  {
    if s != [] && IsDigit(s[0]) then [s[0]] + LeadingDigits(s[1..]) else []
  }

  /** The value of a string of decimal digits, read most significant first. */
  function DecimalValue(ds: string): nat
    requires AllDigits(ds)
  {
    if ds == [] then 0 else 10 * DecimalValue(ds[..|ds| - 1]) + DigitValue(ds[|ds| - 1])
  }

  function Pow10(n: nat): (p: nat)
    ensures p >= 1
  {
    if n == 0 then 1 else 10 * Pow10(n - 1)
  }

  /** A concatenation of digit strings is a digit string. */
  lemma AllDigitsAppend(a: string, b: string)
    requires AllDigits(a) && AllDigits(b)
    ensures AllDigits(a + b)
  {
    forall i | 0 <= i < |a + b| ensures IsDigit((a + b)[i]) {
      if i < |a| { assert (a + b)[i] == a[i]; } else { assert (a + b)[i] == b[i - |a|]; }
    }
  }

  lemma ShiftTen(x: nat, p: nat, y: nat, d: nat)
    ensures 10 * (x * p + y) + d == x * (10 * p) + (10 * y + d)
  {
  }

  /** Reading a concatenation of digit strings: the left part is shifted by the length
      of the right part. */
  lemma {:induction false} DecimalValueAppend(a: string, b: string)
    requires AllDigits(a) && AllDigits(b)
    ensures AllDigits(a + b)
    ensures DecimalValue(a + b) == DecimalValue(a) * Pow10(|b|) + DecimalValue(b)
    decreases |b|
  {
    AllDigitsAppend(a, b);
    if b == [] {
      assert a + b == a;
    } else {
      var b' := b[..|b| - 1];
      var d := DigitValue(b[|b| - 1]);
      assert (a + b)[..|a + b| - 1] == a + b';
      assert (a + b)[|a + b| - 1] == b[|b| - 1];
      DecimalValueAppend(a, b');
      assert DecimalValue(a + b) == 10 * (DecimalValue(a) * Pow10(|b'|) + DecimalValue(b')) + d;
      ShiftTen(DecimalValue(a), Pow10(|b'|), DecimalValue(b'), d);
    }
  }

  /** `String(n)` for a non-negative integer: its decimal digits with no leading zero. */
  function ToDecimal(n: nat): (s: string)
    ensures |s| >= 1 && AllDigits(s)
    ensures |s| > 1 ==> s[0] != '0'
    ensures DecimalValue(s) == n
    decreases n
  {
    var d := ['0' + (n % 10) as char];
    if n < 10 then d
    else
      var high := ToDecimal(n / 10);
      assert (high + d)[0] == high[0];
      assert (high + d)[..|high + d| - 1] == high;
      high + d
  }

  /** `parseInt(s, 10)`: leading whitespace is skipped, then an optional sign, then the
      longest run of digits; with no digit the result is NaN, modelled as `None`. */
  function ParseInt(s: string): (r: Option<int>)
    ensures r.Some? <==> LeadingDigits(UnsignedPart(TrimStart(s))) != []
  {
    var t := TrimStart(s);
    var negative := t != [] && t[0] == '-';
    var digits := LeadingDigits(UnsignedPart(t));
    var magnitude: int := if digits == [] then 0 else DecimalValue(digits);
    if digits == [] then None
    else Some(if negative then -magnitude else magnitude)
  }

  /** `t` without one leading `+` or `-`. */
  function UnsignedPart(t: string): string {
    if t != [] && (t[0] == '+' || t[0] == '-') then t[1..] else t
  }

  /** `parseInt` of a non-empty digit string is its decimal value. */
  lemma ParseIntOfDigits(s: string)
    requires AllDigits(s) && s != []
    ensures ParseInt(s) == Some(DecimalValue(s))
  {
    assert IsDigit(s[0]) && !IsJsWhitespace(s[0]);
    assert TrimStart(s) == s;
    assert UnsignedPart(s) == s;
    LeadingDigitsOfDigits(s);
  }

  lemma {:induction false} ParseIntOfDecimal(n: nat)
    ensures ParseInt(ToDecimal(n)) == Some(n)
  {
    var s := ToDecimal(n);
    assert IsDigit(s[0]);
    assert !IsJsWhitespace(s[0]);
    assert TrimStart(s) == s;
    assert UnsignedPart(s) == s;
    LeadingDigitsOfDigits(s);
  }

  lemma {:induction false} LeadingDigitsOfDigits(s: string)
    requires AllDigits(s)
    ensures LeadingDigits(s) == s
  {
    if s != [] {
      LeadingDigitsOfDigits(s[1..]);
    }
  }

  /** `Number(s)` for integer text: surrounding whitespace is ignored, blank text is 0,
      and an optional sign followed by decimal digits is their value; anything else is
      NaN, modelled as `None`. */
  function JsNumber(s: string): (r: Option<int>)
    ensures Trim(s) == [] ==> r == Some(0)
    ensures Trim(s) != [] && r.Some? ==> UnsignedPart(Trim(s)) != [] && AllDigits(UnsignedPart(Trim(s)))
  {
    var t := Trim(s);
    var u := UnsignedPart(t);
    if t == [] then Some(0)
    else if u == [] || !AllDigits(u) then None
    else Some(if t[0] == '-' then -(DecimalValue(u) as int) else DecimalValue(u))
  }

  /** Text that starts and ends with a non-whitespace character is its own trim. */
  lemma TrimSolid(s: string)
    requires s != [] && !IsJsWhitespace(s[0]) && !IsJsWhitespace(s[|s| - 1])
    ensures Trim(s) == s
  {
    assert TrimStart(s) == s;
  }

  /** `Number` reads back the decimal text of any natural number. */
  lemma JsNumberOfDecimal(n: nat)
    ensures JsNumber(ToDecimal(n)) == Some(n)
  {
    var s := ToDecimal(n);
    TrimSolid(s);
  }

  /** `Number` reads back the text of a negated natural number. */
  lemma JsNumberOfNegated(n: nat)
    ensures JsNumber("-" + ToDecimal(n)) == Some(-(n as int))
  {
    var s := ToDecimal(n);
    var m := "-" + s;
    assert m[|m| - 1] == s[|s| - 1];
    TrimSolid(m);
    assert UnsignedPart(m) == s;
  }
}
