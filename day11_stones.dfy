/** Day 11 (node_runner/src/solved/index.day11.ts): stones engraved with numbers change
    on every blink; the solver keeps a count per distinct stone text in a `Map`. */
module Day11Stones {
  import opened Wrappers
  import opened JsText

  /** The two variants of `processStone`: node_runner strips leading zeros from the
      halves of a split stone, solved_work_Day11 keeps them. */
  datatype Rules = Stripping | Plain

  /** `BigInt(text)` of a text that is not a decimal integer throws a `SyntaxError`. */
  const SyntaxError := "SyntaxError: Cannot convert to a BigInt"

  /** `text.replace(/^0+/, '') || '0'`. */
  function StripZeros(s: string): (r: string)
    ensures r != [] && (r == "0" || r[0] != '0')
    ensures r == "0" || (|r| <= |s| && r == s[|s| - |r|..])
  {
    if s == [] then "0"
    else if s[0] == '0' then (if |s| == 1 then "0" else StripZeros(s[1..]))
    else s
  }

  /** Stripping keeps a digit string's value. */
  lemma {:induction false} StripZerosValue(s: string)
    requires AllDigits(s)
    ensures AllDigits(StripZeros(s)) && DecimalValue(StripZeros(s)) == DecimalValue(s)
  {
    if s != [] && s[0] == '0' {
      LeadingZeroValue(s);
      if |s| > 1 {
        StripZerosValue(s[1..]);
      } else {
        assert s[1..] == [];
      }
    }
  }

  /** A leading zero adds nothing to a decimal value. */
  lemma {:induction false} LeadingZeroValue(s: string)
    requires AllDigits(s) && s != [] && s[0] == '0'
    ensures DecimalValue(s) == DecimalValue(s[1..])
  {
    DecimalValueAppend(s[..1], s[1..]);
    assert s[..1] + s[1..] == s;
    assert DecimalValue(s[..1]) == 10 * DecimalValue([]) + 0 by {
      assert s[..1][..0] == [];
    }
  }

  /** A canonical decimal: digits only, with no leading zero unless it is "0". */
  predicate Canonical(s: string) {
    s != [] && AllDigits(s) && (s == "0" || s[0] != '0')
  }

  /** `processStone`: "0" becomes "1"; an even-length text splits into its two halves;
      any other text is read as a BigInt, multiplied by 2024 and written back. */
  function ProcessStone(rules: Rules, stone: string): (r: Result<seq<string>>)
    ensures r.Ok? ==> 1 <= |r.value| <= 2
    ensures r.Err? <==> stone != "0" && |stone| % 2 == 1 && !AllDigits(stone)
  {
    if stone == "0" then Ok(["1"])
    else if |stone| % 2 == 0 then
      var mid := |stone| / 2;
      var left, right := stone[..mid], stone[mid..];
      if rules == Stripping then Ok([StripZeros(left), StripZeros(right)]) else Ok([left, right])
    else if AllDigits(stone) then Ok([ToDecimal(DecimalValue(stone) * 2024)])
    else Err(SyntaxError)
  }

  /** A split keeps the digits: the halves' values read back as the stone's,
      left · 10^|right| + right, with or without the zeros stripped. */
  lemma SplitStoneValue(rules: Rules, stone: string)
    requires AllDigits(stone) && stone != "0" && |stone| % 2 == 0
    ensures var r := ProcessStone(rules, stone).value;
      |r| == 2 && AllDigits(r[0]) && AllDigits(r[1])
      && DecimalValue(stone) == DecimalValue(r[0]) * Pow10(|stone| / 2) + DecimalValue(r[1])
  {
    var mid := |stone| / 2;
    var left, right := stone[..mid], stone[mid..];
    assert left + right == stone;
    assert AllDigits(left) && AllDigits(right);
    DecimalValueAppend(left, right);
    StripZerosValue(left);
    StripZerosValue(right);
  }

  /** An odd-length digit stone other than "0" becomes its value times 2024. */
  lemma MultipliedStoneValue(rules: Rules, stone: string)
    requires AllDigits(stone) && stone != "0" && |stone| % 2 == 1
    ensures var r := ProcessStone(rules, stone).value;
      |r| == 1 && DecimalValue(r[0]) == DecimalValue(stone) * 2024
  {
  }

  /** With stripping, digit stones produce canonical decimals; without it, digit stones
      still produce digit stones. */
  lemma ProcessStoneDigits(rules: Rules, stone: string)
    requires AllDigits(stone)
    ensures ProcessStone(rules, stone).Ok?
    ensures forall i :: 0 <= i < |ProcessStone(rules, stone).value| ==>
      AllDigits(ProcessStone(rules, stone).value[i])
      && (rules == Stripping ==> Canonical(ProcessStone(rules, stone).value[i]))
  {
    if stone != "0" && |stone| % 2 == 0 {
      var mid := |stone| / 2;
      assert AllDigits(stone[..mid]) && AllDigits(stone[mid..]);
      StripZerosValue(stone[..mid]);
      StripZerosValue(stone[mid..]);
    }
  }

  /** One `Map` entry. */
  datatype Entry = Entry(stone: string, count: nat)

  /** A JavaScript `Map<string, number>`: entries in insertion order. */
  type StoneMap = seq<Entry>

  /** The keys are pairwise different. */
  predicate DistinctKeys(m: StoneMap) {
    forall i, j :: 0 <= i < j < |m| ==> m[i].stone != m[j].stone
  }

  /** `map.get(k) || 0`. */
  function Get(m: StoneMap, k: string): nat {
    if m == [] then 0 else if m[0].stone == k then m[0].count else Get(m[1..], k)
  }

  /** `map.set(k, v)`: an existing key keeps its place, a new key goes last. */
  function Set(m: StoneMap, k: string, v: nat): StoneMap {
    if m == [] then [Entry(k, v)]
    else if m[0].stone == k then [Entry(k, v)] + m[1..]
    else [m[0]] + Set(m[1..], k, v)
  }

  /** `get` after `set`, for one key. */
  lemma {:induction false} GetSet(m: StoneMap, k: string, v: nat, k': string)
    ensures Get(Set(m, k, v), k') == if k' == k then v else Get(m, k')
  {
    if m != [] && m[0].stone != k {
      GetSet(m[1..], k, v, k');
      assert ([m[0]] + Set(m[1..], k, v))[1..] == Set(m[1..], k, v);
    } else if m != [] {
      assert Set(m, k, v)[1..] == m[1..];
    }
  }

  /** A `set` changes the total by the difference between the new and the old value. */
  lemma {:induction false} SetTotal(m: StoneMap, k: string, v: nat)
    ensures Total(Set(m, k, v)) == Total(m) - Get(m, k) + v
  {
    if m != [] && m[0].stone != k {
      SetTotal(m[1..], k, v);
      assert Set(m, k, v) == [m[0]] + Set(m[1..], k, v);
    } else if m != [] {
      assert Set(m, k, v)[1..] == m[1..];
    }
  }

  /** Each key after a `set` is the key set or an old entry. */
  lemma {:induction false} SetKeys(m: StoneMap, k: string, v: nat)
    ensures forall i :: 0 <= i < |Set(m, k, v)| ==> Set(m, k, v)[i].stone == k || Set(m, k, v)[i] in m
  {
    if m != [] && m[0].stone != k {
      SetKeys(m[1..], k, v);
      var rest := Set(m[1..], k, v);
      assert Set(m, k, v) == [m[0]] + rest;
      forall i | 0 <= i < |Set(m, k, v)| ensures Set(m, k, v)[i].stone == k || Set(m, k, v)[i] in m {
        if i > 0 {
          assert Set(m, k, v)[i] == rest[i - 1];
        }
      }
    } else if m != [] {
      assert Set(m, k, v)[1..] == m[1..];
    }
  }

  /** A `set` keeps distinct keys distinct. */
  lemma {:induction false} SetDistinct(m: StoneMap, k: string, v: nat)
    requires DistinctKeys(m)
    ensures DistinctKeys(Set(m, k, v))
  {
    if m != [] && m[0].stone != k {
      SetDistinct(m[1..], k, v);
      SetKeys(m[1..], k, v);
      var rest := Set(m[1..], k, v);
      assert Set(m, k, v) == [m[0]] + rest;
      forall i, j | 0 <= i < j < |[m[0]] + rest| ensures ([m[0]] + rest)[i].stone != ([m[0]] + rest)[j].stone {
        if i == 0 && rest[j - 1].stone != k {
          var t :| 0 <= t < |m[1..]| && m[1..][t] == rest[j - 1];
          assert m[t + 1] == rest[j - 1];
        }
      }
    } else if m != [] {
      assert Set(m, k, v)[1..] == m[1..];
    }
  }

  /** After a `set`, `get` of that key reads the new value and of any other key the old
      one; the total changes by the difference; the keys stay distinct, and each key is
      the one set or an old key. */
  lemma SetProperties(m: StoneMap, k: string, v: nat)
    ensures forall k' :: Get(Set(m, k, v), k') == if k' == k then v else Get(m, k')
    ensures Total(Set(m, k, v)) == Total(m) - Get(m, k) + v
    ensures DistinctKeys(m) ==> DistinctKeys(Set(m, k, v))
    ensures forall i :: 0 <= i < |Set(m, k, v)| ==> Set(m, k, v)[i].stone == k || Set(m, k, v)[i] in m
  {
    forall k' ensures Get(Set(m, k, v), k') == if k' == k then v else Get(m, k') {
      GetSet(m, k, v, k');
    }
    SetTotal(m, k, v);
    SetKeys(m, k, v);
    if DistinctKeys(m) {
      SetDistinct(m, k, v);
    }
  }

  /** `calculateTotalStones`: the sum of the counts. */
  function Total(m: StoneMap): nat {
    if m == [] then 0 else m[0].count + Total(m[1..])
  }

  /** Adding `c` once for every text of `ss`, in order, to the counts in `acc`. */
  function AddAll(acc: StoneMap, ss: seq<string>, c: nat): StoneMap {
    if ss == [] then acc
    else
      var a := AddAll(acc, ss[..|ss| - 1], c);
      Set(a, ss[|ss| - 1], Get(a, ss[|ss| - 1]) + c)
  }

  /** After adding, each text's count has grown by `c` times its number of occurrences
      and the total by `c · |ss|`; distinct keys stay distinct. */
  lemma AddAllCounts(acc: StoneMap, ss: seq<string>, c: nat)
    ensures forall k :: Get(AddAll(acc, ss, c), k) == Get(acc, k) + c * multiset(ss)[k]
    ensures Total(AddAll(acc, ss, c)) == Total(acc) + c * |ss|
    ensures DistinctKeys(acc) ==> DistinctKeys(AddAll(acc, ss, c))
  {
    forall k ensures Get(AddAll(acc, ss, c), k) == Get(acc, k) + c * multiset(ss)[k] {
      AddAllGet(acc, ss, c, k);
      OccMultiplicity(ss, k);
    }
    AddAllTotal(acc, ss, c);
  }

  /** The number of occurrences of `k` in `ss`. */
  function Occ(ss: seq<string>, k: string): nat {
    if ss == [] then 0 else Occ(ss[..|ss| - 1], k) + (if ss[|ss| - 1] == k then 1 else 0)
  }

  lemma {:induction false} OccMultiplicity(ss: seq<string>, k: string)
    ensures Occ(ss, k) == multiset(ss)[k]
  {
    if ss != [] {
      OccMultiplicity(ss[..|ss| - 1], k);
      assert ss == ss[..|ss| - 1] + [ss[|ss| - 1]];
    }
  }

  lemma AddAllGet(acc: StoneMap, ss: seq<string>, c: nat, k: string)
    ensures Get(AddAll(acc, ss, c), k) == Get(acc, k) + c * Occ(ss, k)
  {
    AddAllAdded(acc, ss, c, k);
    AddedIsScaled(ss, c, k);
  }

  /** `c` for every occurrence of `k` in `ss`. */
  function Added(ss: seq<string>, c: nat, k: string): nat {
    if ss == [] then 0 else Added(ss[..|ss| - 1], c, k) + (if ss[|ss| - 1] == k then c else 0)
  }

  lemma {:induction false} AddedIsScaled(ss: seq<string>, c: nat, k: string)
    ensures Added(ss, c, k) == c * Occ(ss, k)
  {
    if ss != [] {
      AddedIsScaled(ss[..|ss| - 1], c, k);
      var n := Occ(ss[..|ss| - 1], k);
      assert c * (n + 1) == c * n + c;
    }
  }

  lemma {:induction false} AddAllAdded(acc: StoneMap, ss: seq<string>, c: nat, k: string)
    ensures Get(AddAll(acc, ss, c), k) == Get(acc, k) + Added(ss, c, k)
  {
    if ss != [] {
      var init := ss[..|ss| - 1];
      var last := ss[|ss| - 1];
      AddAllAdded(acc, init, c, k);
      var a := AddAll(acc, init, c);
      GetSet(a, last, Get(a, last) + c, k);
    }
  }

  lemma {:induction false} AddAllTotal(acc: StoneMap, ss: seq<string>, c: nat)
    ensures Total(AddAll(acc, ss, c)) == Total(acc) + c * |ss|
    ensures DistinctKeys(acc) ==> DistinctKeys(AddAll(acc, ss, c))
  {
    AddAllSum(acc, ss, c);
    if DistinctKeys(acc) {
      AddAllDistinct(acc, ss, c);
    }
  }

  lemma {:induction false} AddAllSum(acc: StoneMap, ss: seq<string>, c: nat)
    ensures Total(AddAll(acc, ss, c)) == Total(acc) + c * |ss|
  {
    if ss != [] {
      var init := ss[..|ss| - 1];
      var last := ss[|ss| - 1];
      AddAllSum(acc, init, c);
      var a := AddAll(acc, init, c);
      SetTotal(a, last, Get(a, last) + c);
      MulSucc(c, |init|);
    }
  }

  lemma {:induction false} AddAllDistinct(acc: StoneMap, ss: seq<string>, c: nat)
    requires DistinctKeys(acc)
    ensures DistinctKeys(AddAll(acc, ss, c))
  {
    if ss != [] {
      var init := ss[..|ss| - 1];
      AddAllDistinct(acc, init, c);
      var a := AddAll(acc, init, c);
      SetDistinct(a, ss[|ss| - 1], Get(a, ss[|ss| - 1]) + c);
    }
  }

  lemma MulSucc(c: nat, n: nat)
    ensures c * (n + 1) == c * n + c
  {
  }

  lemma MulOneOrTwo(c: nat, n: nat)
    requires 1 <= n <= 2
    ensures c <= c * n <= 2 * c
  {
  }

  /** `arrayToStoneMap`: one `set` per stone, adding one to its count. */
  method ArrayToStoneMap(stones: seq<string>) returns (m: StoneMap)
    ensures m == AddAll([], stones, 1)
    ensures DistinctKeys(m) && Total(m) == |stones|
    ensures forall k :: Get(m, k) == multiset(stones)[k]
  {
    m := [];
    var i := 0;
    while i < |stones|
      invariant 0 <= i <= |stones| && m == AddAll([], stones[..i], 1)
    {
      assert stones[..i + 1][..i] == stones[..i];
      m := Set(m, stones[i], Get(m, stones[i]) + 1);
      i := i + 1;
    }
    assert stones[..i] == stones;
    AddAllCounts([], stones, 1);
  }

  /** Every stone of the map can be processed. */
  predicate Processable(rules: Rules, m: StoneMap) {
    forall i :: 0 <= i < |m| ==> ProcessStone(rules, m[i].stone).Ok?
  }

  /** The new map of a blink: entry by entry, in order, each resulting stone's count grows
      by the entry's count. */
  function Fold(rules: Rules, m: StoneMap): StoneMap
    requires Processable(rules, m)
  {
    if m == [] then []
    else
      var last := m[|m| - 1];
      AddAll(Fold(rules, m[..|m| - 1]), ProcessStone(rules, last.stone).value, last.count)
  }

  /** Σ count · (occurrences of `k` among the stone's results). */
  function Contribution(rules: Rules, m: StoneMap, k: string): nat
    requires Processable(rules, m)
  {
    if m == [] then 0
    else
      var last := m[|m| - 1];
      Contribution(rules, m[..|m| - 1], k) + last.count * multiset(ProcessStone(rules, last.stone).value)[k]
  }

  /** Σ count · |processStone(stone)|. */
  function Weighted(rules: Rules, m: StoneMap): nat
    requires Processable(rules, m)
  {
    if m == [] then 0
    else
      var last := m[|m| - 1];
      Weighted(rules, m[..|m| - 1]) + last.count * |ProcessStone(rules, last.stone).value|
  }

  /** `processBlinkMap` as a value: `Err` when a stone cannot be processed. */
  function Blink(rules: Rules, m: StoneMap): (r: Result<StoneMap>)
    ensures r.Err? <==> !Processable(rules, m)
  {
    if Processable(rules, m) then Ok(Fold(rules, m)) else Err(SyntaxError)
  }

  /** A blink gives each stone text the count of all the stones turning into it, has
      distinct keys, and its total is Σ count · |processStone(stone)|. */
  lemma {:induction false} BlinkCounts(rules: Rules, m: StoneMap)
    requires Processable(rules, m)
    ensures forall k :: Get(Fold(rules, m), k) == Contribution(rules, m, k)
    ensures Total(Fold(rules, m)) == Weighted(rules, m)
    ensures DistinctKeys(Fold(rules, m))
  {
    if m != [] {
      var init := m[..|m| - 1];
      assert Processable(rules, init) by {
        forall i | 0 <= i < |init| ensures ProcessStone(rules, init[i].stone).Ok? {
          assert init[i] == m[i];
        }
      }
      BlinkCounts(rules, init);
      var last := m[|m| - 1];
      AddAllCounts(Fold(rules, init), ProcessStone(rules, last.stone).value, last.count);
    }
  }

  /** A blink never lowers the number of stones: each stone turns into one or two. */
  lemma {:induction false} BlinkGrows(rules: Rules, m: StoneMap)
    requires Processable(rules, m)
    ensures Total(m) <= Weighted(rules, m) <= 2 * Total(m)
  {
    if m != [] {
      var init := m[..|m| - 1];
      assert Processable(rules, init) by {
        forall i | 0 <= i < |init| ensures ProcessStone(rules, init[i].stone).Ok? {
          assert init[i] == m[i];
        }
      }
      BlinkGrows(rules, init);
      TotalSplit(m);
      var last := m[|m| - 1];
      MulOneOrTwo(last.count, |ProcessStone(rules, last.stone).value|);
    }
  }

  /** The total of a map is the total of all but its last entry plus that entry's count. */
  lemma {:induction false} TotalSplit(m: StoneMap)
    requires m != []
    ensures Total(m) == Total(m[..|m| - 1]) + m[|m| - 1].count
  {
    if |m| > 1 {
      TotalSplit(m[1..]);
      assert m[1..][..|m[1..]| - 1] == m[..|m| - 1][1..];
    }
  }

  /** Every key is a digit string. */
  predicate DigitKeys(m: StoneMap) {
    forall i :: 0 <= i < |m| ==> AllDigits(m[i].stone)
  }

  /** Digit stones only produce digit stones, so a map of digit stones always blinks
      without error, into a map of digit stones. */
  lemma {:induction false} BlinkDigits(rules: Rules, m: StoneMap)
    requires DigitKeys(m)
    ensures Processable(rules, m) && DigitKeys(Fold(rules, m))
  {
    forall i | 0 <= i < |m| ensures ProcessStone(rules, m[i].stone).Ok? {
      ProcessStoneDigits(rules, m[i].stone);
    }
    if m != [] {
      var init := m[..|m| - 1];
      assert DigitKeys(init) by {
        forall i | 0 <= i < |init| ensures AllDigits(init[i].stone) {
          assert init[i] == m[i];
        }
      }
      BlinkDigits(rules, init);
      var last := m[|m| - 1];
      ProcessStoneDigits(rules, last.stone);
      AddAllDigits(Fold(rules, init), ProcessStone(rules, last.stone).value, last.count);
    }
  }

  lemma {:induction false} AddAllDigits(acc: StoneMap, ss: seq<string>, c: nat)
    requires DigitKeys(acc) && forall i :: 0 <= i < |ss| ==> AllDigits(ss[i])
    ensures DigitKeys(AddAll(acc, ss, c))
  {
    if ss != [] {
      AddAllDigits(acc, ss[..|ss| - 1], c);
      var a := AddAll(acc, ss[..|ss| - 1], c);
      var r := Set(a, ss[|ss| - 1], Get(a, ss[|ss| - 1]) + c);
      SetKeys(a, ss[|ss| - 1], Get(a, ss[|ss| - 1]) + c);
      forall i | 0 <= i < |r| ensures AllDigits(r[i].stone) {
        if r[i].stone != ss[|ss| - 1] {
          var j :| 0 <= j < |a| && a[j] == r[i];
        }
      }
    }
  }

  /** `n` blinks in a row. */
  function Blinks(rules: Rules, m: StoneMap, n: nat): Result<StoneMap> {
    if n == 0 then Ok(m)
    else match Blinks(rules, m, n - 1)
      case Ok(x) => Blink(rules, x)
      case Err(e) => Err(e)
  }

  /** From digit stones, any number of blinks succeeds, keeps the keys distinct, and
      never lowers the total. */
  lemma {:induction false} BlinksGrow(rules: Rules, m: StoneMap, n: nat)
    requires DigitKeys(m) && DistinctKeys(m)
    ensures Blinks(rules, m, n).Ok?
    ensures DigitKeys(Blinks(rules, m, n).value) && DistinctKeys(Blinks(rules, m, n).value)
    ensures Total(m) <= Total(Blinks(rules, m, n).value)
  {
    if n > 0 {
      BlinksGrow(rules, m, n - 1);
      var x := Blinks(rules, m, n - 1).value;
      BlinkDigits(rules, x);
      BlinkCounts(rules, x);
      BlinkGrows(rules, x);
    }
  }

  /** The first `i` entries can be processed. */
  lemma ProcessableUpTo(rules: Rules, m: StoneMap, i: nat)
    requires i <= |m| && forall j :: 0 <= j < i ==> ProcessStone(rules, m[j].stone).Ok?
    ensures Processable(rules, m[..i])
  {
    forall j | 0 <= j < i ensures ProcessStone(rules, m[..i][j].stone).Ok? {
      assert m[..i][j] == m[j];
    }
  }

  /** One more entry of the map folds its stones into the fold of the entries before it. */
  lemma FoldStep(rules: Rules, m: StoneMap, i: nat)
    requires i < |m| && forall j :: 0 <= j <= i ==> ProcessStone(rules, m[j].stone).Ok?
    ensures Processable(rules, m[..i]) && Processable(rules, m[..i + 1])
    ensures Fold(rules, m[..i + 1]) == AddAll(Fold(rules, m[..i]), ProcessStone(rules, m[i].stone).value, m[i].count)
  {
    ProcessableUpTo(rules, m, i);
    ProcessableUpTo(rules, m, i + 1);
    assert m[..i + 1][..i] == m[..i] && m[..i + 1][i] == m[i];
  }

  /** A prefix of a processable map is processable. */
  lemma ProcessablePrefix(rules: Rules, m: StoneMap, i: nat)
    requires Processable(rules, m) && i <= |m|
    ensures Processable(rules, m[..i])
  {
    forall j | 0 <= j < i ensures ProcessStone(rules, m[..i][j].stone).Ok? {
      assert m[..i][j] == m[j];
    }
  }

  /** The first loop of `processBlinkMap`: every stone's transformation, keyed by the
      stone, or the error of the first stone that cannot be processed. */
  method Transformations(m: StoneMap) returns (r: Result<map<string, seq<string>>>)
    ensures r.Err? <==> !Processable(Stripping, m)
    ensures r.Err? ==> r == Err(SyntaxError)
    ensures r.Ok? ==> forall j :: 0 <= j < |m| ==>
      m[j].stone in r.value && r.value[m[j].stone] == ProcessStone(Stripping, m[j].stone).value
  {
    var transformations: map<string, seq<string>> := map[];
    var i := 0;
    while i < |m|
      invariant 0 <= i <= |m|
      invariant forall j :: 0 <= j < i ==> (ProcessStone(Stripping, m[j].stone).Ok?
        && m[j].stone in transformations && transformations[m[j].stone] == ProcessStone(Stripping, m[j].stone).value)
    {
      var result := ProcessStone(Stripping, m[i].stone);
      if result.Err? {
        return Err(result.message);
      }
      transformations := transformations[m[i].stone := result.value];
      i := i + 1;
    }
    r := Ok(transformations);
  }

  /** `processBlinkMap`: first every distinct stone's transformation, then, entry by
      entry, every resulting stone's count grows by the entry's count. */
  method ProcessBlinkMap(m: StoneMap) returns (r: Result<StoneMap>)
    ensures r == Blink(Stripping, m)
  {
    var t := Transformations(m);
    if t.Err? {
      return Err(t.message);
    }
    var transformations := t.value;
    var newMap: StoneMap := [];
    var i := 0;
    while i < |m|
      invariant 0 <= i <= |m| && Processable(Stripping, m[..i]) && newMap == Fold(Stripping, m[..i])
    {
      ProcessablePrefix(Stripping, m, i + 1);
      var newStones := if m[i].stone in transformations then transformations[m[i].stone] else [];
      newMap := AddStones(newMap, newStones, m[i].count);
      assert m[..i + 1][..i] == m[..i] && m[..i + 1][i] == m[i];
      i := i + 1;
    }
    assert m[..i] == m;
    r := Ok(newMap);
  }

  /** The `forEach` of `processBlinkMap`: each new stone's count grows by `count`. */
  method AddStones(acc: StoneMap, newStones: seq<string>, count: nat) returns (r: StoneMap)
    ensures r == AddAll(acc, newStones, count)
  {
    r := acc;
    var j := 0;
    while j < |newStones|
      invariant 0 <= j <= |newStones| && r == AddAll(acc, newStones[..j], count)
    {
      assert newStones[..j + 1][..j] == newStones[..j];
      r := Set(r, newStones[j], Get(r, newStones[j]) + count);
      j := j + 1;
    }
    assert newStones[..j] == newStones;
  }

  /** `processDirectly`: count the stones, then blink `totalBlinks` times; the total of
      the final map. */
  method ProcessDirectly(initialStones: seq<string>, totalBlinks: nat) returns (r: Result<nat>)
    ensures match Blinks(Stripping, AddAll([], initialStones, 1), totalBlinks)
      case Ok(x) => r == Ok(Total(x))
      case Err(e) => r == Err(e)
  {
    var currentState := ArrayToStoneMap(initialStones);
    var i := 0;
    while i < totalBlinks
      invariant 0 <= i <= totalBlinks
      invariant Blinks(Stripping, AddAll([], initialStones, 1), i) == Ok(currentState)
    {
      var next := ProcessBlinkMap(currentState);
      BlinksNext(Stripping, AddAll([], initialStones, 1), i, currentState);
      if next.Err? {
        BlinksErr(Stripping, AddAll([], initialStones, 1), i + 1, totalBlinks);
        return Err(next.message);
      }
      currentState := next.value;
      i := i + 1;
    }
    r := Ok(Total(currentState));
  }

  /** The state after one more blink is the blink of the current state. */
  lemma BlinksNext(rules: Rules, m: StoneMap, n: nat, current: StoneMap)
    requires Blinks(rules, m, n) == Ok(current)
    ensures Blinks(rules, m, n + 1) == Blink(rules, current)
  {
  }

  /** Once a blink fails, every later count of blinks fails with the same error. */
  lemma {:induction false} BlinksErr(rules: Rules, m: StoneMap, n: nat, later: nat)
    requires n <= later && Blinks(rules, m, n).Err?
    ensures Blinks(rules, m, later) == Blinks(rules, m, n)
    decreases later
  {
    if later > n {
      BlinksErr(rules, m, n, later - 1);
    }
  }

  /** The stones of the input: `input.trim().split(' ')`. */
  function Stones(input: string): seq<string> {
    Split(Trim(input), " ")
  }

  /** `solve_pt1` (25 blinks) and `solve_pt2` (75 blinks): the number of stones, or 0 when
      a stone cannot be read as a BigInt. */
  method Solve(input: string, blinks: nat) returns (total: nat)
    ensures match Blinks(Stripping, AddAll([], Stones(input), 1), blinks)
      case Ok(x) => total == Total(x)
      case Err(_) => total == 0
  {
    var r := ProcessDirectly(Stones(input), blinks);
    total := if r.Ok? then r.value else 0;
  }
}
