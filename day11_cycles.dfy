/** Day 11 with cycle detection (solved_work_Day11/02_PUZZLE_SOLUTION/index.ts): the
    stones blink by the rules that keep leading zeros, and part 2 looks for a repeated
    state to skip ahead. */
module Day11Cycles {
  import opened Wrappers
  import opened JsText
  import opened Day11Stones

  /** The two rule variants on the stone "1000": without stripping the right half keeps
      its zeros, with stripping it is read as "0". */
  lemma SplitKeepsZeros()
    ensures ProcessStone(Plain, "1000") == Ok(["10", "00"])
    ensures ProcessStone(Stripping, "1000") == Ok(["10", "0"])
  {
    assert "1000"[..2] == "10" && "1000"[2..] == "00";
    assert StripZeros("00") == "0" by {
      assert "00"[1..] == "0";
    }
  }

  /** `a.localeCompare(b) < 0`, taken as the code-unit order: a proper prefix comes
      first, otherwise the first differing character decides. */
  function Less(a: string, b: string): bool {
    if a == [] then b != []
    else if b == [] then false
    else if a[0] != b[0] then a[0] < b[0]
    else Less(a[1..], b[1..])
  }

  /** The order is strict and total on different texts. */
  lemma {:induction false} LessStrictTotal(a: string, b: string)
    ensures !(Less(a, b) && Less(b, a))
    ensures a != b ==> Less(a, b) || Less(b, a)
    ensures !Less(a, a)
  {
    if a != [] && b != [] && a[0] == b[0] {
      LessStrictTotal(a[1..], b[1..]);
      if a != b {
        assert a == [a[0]] + a[1..] && b == [b[0]] + b[1..];
      }
    } else if a != [] {
      LessStrictTotal(a[1..], a[1..]);
    }
  }

  lemma {:induction false} LessTrans(a: string, b: string, c: string)
    requires Less(a, b) && Less(b, c)
    ensures Less(a, c)
  {
    if a != [] && b != [] && c != [] && a[0] == b[0] && b[0] == c[0] {
      LessTrans(a[1..], b[1..], c[1..]);
    }
  }

  /** Entries in strictly increasing key order. */
  predicate StrictlySorted(s: StoneMap) {
    forall i, j :: 0 <= i < j < |s| ==> Less(s[i].stone, s[j].stone)
  }

  /** One insertion step of the sort. */
  function Insert(e: Entry, s: StoneMap): (r: StoneMap)
    ensures multiset(r) == multiset(s) + multiset{e}
  {
    if s == [] then [e]
    else if Less(e.stone, s[0].stone) then [e] + s
    else
      assert s == [s[0]] + s[1..];
      [s[0]] + Insert(e, s[1..])
  }

  lemma {:induction false} InsertSorted(e: Entry, s: StoneMap)
    requires StrictlySorted(s) && forall i :: 0 <= i < |s| ==> s[i].stone != e.stone
    ensures StrictlySorted(Insert(e, s))
  {
    if s != [] {
      if Less(e.stone, s[0].stone) {
        forall j | 0 < j < |s| ensures Less(e.stone, s[j].stone) {
          LessTrans(e.stone, s[0].stone, s[j].stone);
        }
      } else {
        LessStrictTotal(e.stone, s[0].stone);
        InsertSorted(e, s[1..]);
        var rest := Insert(e, s[1..]);
        forall j | 0 <= j < |rest| ensures Less(s[0].stone, rest[j].stone) {
          assert rest[j] in multiset(s[1..]) + multiset{e};
          if rest[j] != e {
            var t :| 0 <= t < |s[1..]| && s[1..][t] == rest[j];
            assert s[t + 1] == rest[j];
          }
        }
      }
    }
  }

  /** `Array.from(state.entries()).sort(([a], [b]) => a.localeCompare(b))`. */
  function Sort(m: StoneMap): (r: StoneMap)
    ensures multiset(r) == multiset(m)
  {
    if m == [] then []
    else
      assert m == [m[0]] + m[1..];
      Insert(m[0], Sort(m[1..]))
  }

  /** With distinct keys the sort is strictly increasing. */
  lemma {:induction false} SortSorted(m: StoneMap)
    requires DistinctKeys(m)
    ensures StrictlySorted(Sort(m))
  {
    if m != [] {
      assert DistinctKeys(m[1..]) by {
        forall i, j | 0 <= i < j < |m[1..]| ensures m[1..][i].stone != m[1..][j].stone {
          assert m[1..][i] == m[i + 1] && m[1..][j] == m[j + 1];
        }
      }
      SortSorted(m[1..]);
      var s := Sort(m[1..]);
      forall i | 0 <= i < |s| ensures s[i].stone != m[0].stone {
        assert s[i] in multiset(m[1..]);
        var t :| 0 <= t < |m[1..]| && m[1..][t] == s[i];
        assert m[t + 1] == s[i];
      }
      InsertSorted(m[0], s);
    }
  }

  /** The entries after the head are the entries less the head. */
  lemma TailEntries(a: StoneMap)
    requires a != []
    ensures multiset(a[1..]) == multiset(a) - multiset{a[0]}
  {
    assert a == [a[0]] + a[1..];
  }

  /** Two non-empty strictly sorted lists with the same entries start alike: each head is
      the least entry. */
  lemma SameHead(a: StoneMap, b: StoneMap)
    requires StrictlySorted(a) && StrictlySorted(b) && multiset(a) == multiset(b) && a != []
    ensures b != [] && a[0] == b[0]
  {
    assert a[0] in multiset(b);
    assert b[0] in multiset(a);
    var i :| 0 <= i < |a| && a[i] == b[0];
    var j :| 0 <= j < |b| && b[j] == a[0];
    if i != 0 && j != 0 {
      LessStrictTotal(a[0].stone, b[0].stone);
    }
  }

  /** Two strictly sorted lists with the same entries are the same list. */
  lemma {:induction false} SortedUnique(a: StoneMap, b: StoneMap)
    requires StrictlySorted(a) && StrictlySorted(b) && multiset(a) == multiset(b)
    ensures a == b
  {
    if a != [] {
      SameHead(a, b);
      TailEntries(a);
      TailEntries(b);
      SortedUnique(a[1..], b[1..]);
      assert a == [a[0]] + a[1..] && b == [b[0]] + b[1..];
    } else if b != [] {
      SameHead(b, a);
    }
  }

  /** `${stone}:${count}` for every entry of the sorted list, joined with `|`. */
  function Serialize(m: StoneMap): string {
    var s := Sort(m);
    Join(seq(|s|, i requires 0 <= i < |s| => s[i].stone + ":" + ToDecimal(s[i].count)), "|")
  }

  /** `serializeState` depends only on the contents: two maps with distinct keys and the
      same entries, in whatever insertion order, give the same text. */
  lemma SerializeContents(m1: StoneMap, m2: StoneMap)
    requires DistinctKeys(m1) && DistinctKeys(m2) && multiset(m1) == multiset(m2)
    ensures Serialize(m1) == Serialize(m2)
  {
    SortSorted(m1);
    SortSorted(m2);
    SortedUnique(Sort(m1), Sort(m2));
  }

  /** `processBlinkMap` of this variant: one pass that processes each stone and adds its
      count to every resulting stone. */
  method ProcessBlinkMap(m: StoneMap) returns (r: Result<StoneMap>)
    ensures r == Blink(Plain, m)
  {
    var newMap: StoneMap := [];
    var i := 0;
    while i < |m|
      invariant 0 <= i <= |m| && forall j :: 0 <= j < i ==> ProcessStone(Plain, m[j].stone).Ok?
      invariant Processable(Plain, m[..i]) && newMap == Fold(Plain, m[..i])
    {
      var newStones := ProcessStone(Plain, m[i].stone);
      if newStones.Err? {
        assert !Processable(Plain, m);
        return Err(newStones.message);
      }
      FoldStep(Plain, m, i);
      newMap := AddStones(newMap, newStones.value, m[i].count);
      i := i + 1;
    }
    assert m[..i] == m;
    r := Ok(newMap);
  }

  /** `processDirectly` of this variant. */
  method ProcessDirectly(initialStones: seq<string>, totalBlinks: nat) returns (r: Result<nat>)
    ensures match Blinks(Plain, AddAll([], initialStones, 1), totalBlinks)
      case Ok(x) => r == Ok(Total(x))
      case Err(e) => r == Err(e)
  {
    var currentState := ArrayToStoneMap(initialStones);
    var i := 0;
    while i < totalBlinks
      invariant 0 <= i <= totalBlinks
      invariant Blinks(Plain, AddAll([], initialStones, 1), i) == Ok(currentState)
    {
      var next := ProcessBlinkMap(currentState);
      BlinksNext(Plain, AddAll([], initialStones, 1), i, currentState);
      if next.Err? {
        BlinksErr(Plain, AddAll([], initialStones, 1), i + 1, totalBlinks);
        return Err(next.message);
      }
      currentState := next.value;
      i := i + 1;
    }
    r := Ok(Total(currentState));
  }

  /** `CycleData`. */
  datatype CycleData = CycleData(cycleLength: int, stateHistory: seq<StoneMap>, firstRepeatIndex: nat)

  /** The state after `j` blinks of the counted input. */
  function StateAt(stones: seq<string>, j: nat): Result<StoneMap> {
    Blinks(Plain, AddAll([], stones, 1), j)
  }

  /** The recorded states are the states after 0, 1, … blinks. */
  predicate IsHistory(stones: seq<string>, history: seq<StoneMap>) {
    forall j :: 0 <= j < |history| ==> StateAt(stones, j) == Ok(history[j])
  }

  /** No two recorded states serialise alike. */
  predicate NoRepeat(history: seq<StoneMap>) {
    forall j1, j2 :: 0 <= j1 < j2 < |history| ==> Serialize(history[j1]) != Serialize(history[j2])
  }

  /** `history.findIndex(h => serializeState(h) === signature)`. */
  method FindIndex(history: seq<StoneMap>, signature: string) returns (r: int)
    ensures -1 <= r < |history|
    ensures r >= 0 ==> Serialize(history[r]) == signature
    ensures forall j :: 0 <= j < |history| && (r == -1 || j < r) ==> Serialize(history[j]) != signature
  {
    var j := 0;
    while j < |history|
      invariant 0 <= j <= |history|
      invariant forall t :: 0 <= t < j ==> Serialize(history[t]) != signature
    {
      if Serialize(history[j]) == signature {
        return j;
      }
      j := j + 1;
    }
    return -1;
  }

  /** Recording a state that serialises unlike every recorded one keeps the history a
      history without repeats. */
  lemma HistoryExtend(stones: seq<string>, history: seq<StoneMap>, current: StoneMap)
    requires IsHistory(stones, history) && NoRepeat(history)
    requires StateAt(stones, |history|) == Ok(current)
    requires forall j :: 0 <= j < |history| ==> Serialize(history[j]) != Serialize(current)
    ensures IsHistory(stones, history + [current]) && NoRepeat(history + [current])
  {
    var h := history + [current];
    forall j | 0 <= j < |h| ensures StateAt(stones, j) == Ok(h[j]) {
      if j < |history| {
        assert h[j] == history[j];
      }
    }
    forall j1, j2 | 0 <= j1 < j2 < |h| ensures Serialize(h[j1]) != Serialize(h[j2]) {
      assert h[j1] == history[j1];
      if j2 < |history| {
        assert h[j2] == history[j2];
      }
    }
  }

  /** The serialisation of the state after `j` blinks, `None` when a blink throws. */
  function SignatureAt(stones: seq<string>, j: nat): Option<string> {
    match StateAt(stones, j)
    case Ok(m) => Some(Serialize(m))
    case Err(_) => None
  }

  /** The serialisations of the states after 0 … n − 1 blinks. */
  function Signatures(stones: seq<string>, n: nat): (r: seq<Option<string>>)
    ensures |r| == n && forall j :: 0 <= j < n ==> r[j] == SignatureAt(stones, j)
  {
    seq(n, j requires 0 <= j => SignatureAt(stones, j))
  }

  /** The earliest index of `sigs` holding `signature`. */
  function EarliestLike(sigs: seq<Option<string>>, signature: string): (r: Option<nat>)
    ensures r.Some? ==> r.value < |sigs| && sigs[r.value] == Some(signature)
    ensures forall k :: 0 <= k < |sigs| && (r.None? || k < r.value) ==> sigs[k] != Some(signature)
  {
    if sigs == [] then None
    else if sigs[0] == Some(signature) then Some(0)
    else match EarliestLike(sigs[1..], signature)
      case None => None
      case Some(k) => Some(k + 1)
  }

  /** The first recorded state that serialises as `signature` is the earliest such state. */
  lemma EarliestIs(stones: seq<string>, history: seq<StoneMap>, signature: string, p: nat)
    requires IsHistory(stones, history)
    requires p < |history| && Serialize(history[p]) == signature
    requires forall j :: 0 <= j < p ==> Serialize(history[j]) != signature
    ensures EarliestLike(Signatures(stones, |history|), signature) == Some(p)
  {
    var sigs := Signatures(stones, |history|);
    forall j | 0 <= j < |history| ensures sigs[j] == Some(Serialize(history[j])) {
      assert StateAt(stones, j) == Ok(history[j]);
    }
    EarliestAt(sigs, signature, p);
  }

  lemma EarliestAt(sigs: seq<Option<string>>, signature: string, p: nat)
    requires p < |sigs| && sigs[p] == Some(signature)
    requires forall j :: 0 <= j < p ==> sigs[j] != Some(signature)
    ensures EarliestLike(sigs, signature) == Some(p)
  {
  }

  /** When no recorded state serialises as `signature`, no earlier state does. */
  lemma EarliestNone(stones: seq<string>, history: seq<StoneMap>, signature: string)
    requires IsHistory(stones, history)
    requires forall j :: 0 <= j < |history| ==> Serialize(history[j]) != signature
    ensures EarliestLike(Signatures(stones, |history|), signature) == None
  {
  }

  /** A repeat: the state after `first + cycleLength` blinks serialises like the earlier
      state after `first` blinks. */
  datatype Repeat = Repeat(first: nat, cycleLength: nat)

  /** What `detectCycle` finds, looking from the state after `i` blinks on: the first state
      that serialises like an earlier one, paired with the earliest such; `None` when no
      state before `maxIterations` does; an error when a blink throws first. */
  function CycleFrom(stones: seq<string>, maxIterations: nat, i: nat): (r: Result<Option<Repeat>>)
    ensures r.Ok? && r.value.Some? ==>
      1 <= r.value.value.cycleLength && r.value.value.first + r.value.value.cycleLength < maxIterations
    decreases maxIterations - i
  {
    if i >= maxIterations then Ok(None)
    else match StateAt(stones, i)
      case Err(e) => Err(e)
      case Ok(current) =>
        match EarliestLike(Signatures(stones, i), Serialize(current))
        case Some(k) => Ok(Some(Repeat(k, i - k)))
        case None =>
          if StateAt(stones, i + 1).Err? then Err(StateAt(stones, i + 1).message)
          else CycleFrom(stones, maxIterations, i + 1)
  }

  /** `detectCycle`: record the state before each blink until one serialises like an
      earlier one. A found cycle has length i − first ≥ 1, where i is the number of states
      recorded and the state after i blinks repeats the recorded state `first`, the
      earliest such; no repeat within `maxIterations` gives `None`. */
  method DetectCycle(initialStones: seq<string>, maxIterations: nat) returns (r: Result<Option<CycleData>>)
    ensures r.Err? ==> StateAt(initialStones, maxIterations).Err?
    ensures r.Ok? && r.value.Some? ==>
      var d := r.value.value; var n := |d.stateHistory|;
      n < maxIterations && IsHistory(initialStones, d.stateHistory) && NoRepeat(d.stateHistory)
      && d.firstRepeatIndex < n && d.cycleLength == n - d.firstRepeatIndex >= 1
      && StateAt(initialStones, n).Ok?
      && Serialize(d.stateHistory[d.firstRepeatIndex]) == Serialize(StateAt(initialStones, n).value)
      && forall j :: 0 <= j < d.firstRepeatIndex ==> Serialize(d.stateHistory[j]) != Serialize(StateAt(initialStones, n).value)
    ensures r == Ok(None) ==> exists history :: |history| == maxIterations && IsHistory(initialStones, history) && NoRepeat(history)
    ensures r.Err? <==> CycleFrom(initialStones, maxIterations, 0).Err?
    ensures r.Ok? ==> CycleFrom(initialStones, maxIterations, 0) == Ok(
      match r.value
      case None => None
      case Some(d) => Some(Repeat(d.firstRepeatIndex, d.cycleLength)))
  {
    var history: seq<StoneMap> := [];
    var currentState := ArrayToStoneMap(initialStones);
    var i := 0;
    while i < maxIterations
      invariant 0 <= i <= maxIterations && |history| == i
      invariant IsHistory(initialStones, history) && NoRepeat(history)
      invariant StateAt(initialStones, i) == Ok(currentState)
      invariant CycleFrom(initialStones, maxIterations, i) == CycleFrom(initialStones, maxIterations, 0)
    {
      var stateSignature := Serialize(currentState);
      var previousIndex := FindIndex(history, stateSignature);
      if previousIndex != -1 {
        EarliestIs(initialStones, history, stateSignature, previousIndex);
        return Ok(Some(CycleData(i - previousIndex, history, previousIndex)));
      }
      EarliestNone(initialStones, history, stateSignature);
      HistoryExtend(initialStones, history, currentState);
      history := history + [currentState];
      var next := ProcessBlinkMap(currentState);
      BlinksNext(Plain, AddAll([], initialStones, 1), i, currentState);
      if next.Err? {
        BlinksErr(Plain, AddAll([], initialStones, 1), i + 1, maxIterations);
        return Err(next.message);
      }
      currentState := next.value;
      i := i + 1;
    }
    return Ok(None);
  }

  /** JavaScript `%`: the remainder takes the sign of the dividend. */
  function JsRem(a: int, b: int): (r: int)
    requires b > 0
    ensures a >= 0 ==> 0 <= r < b
    ensures a < 0 ==> -b < r <= 0 && -r <= -a
  {
    if a >= 0 then a % b else -((-a) % b)
  }

  /** `finalStateIndex = firstRepeatIndex + (totalBlinks - firstRepeatIndex) % cycleLength`. */
  function FinalStateIndex(first: nat, cycleLength: int, totalBlinks: nat): int
    requires cycleLength >= 1
  {
    first + JsRem(totalBlinks - first, cycleLength)
  }

  /** When the repeat starts by blink `totalBlinks`, the index lies in the cycle
      [first, first + cycleLength); in every case it lies inside the recorded history
      of `first + cycleLength` states. */
  lemma FinalStateInHistory(first: nat, cycleLength: int, totalBlinks: nat)
    requires cycleLength >= 1
    ensures first <= totalBlinks ==>
      first <= FinalStateIndex(first, cycleLength, totalBlinks) < first + cycleLength
    ensures 0 <= FinalStateIndex(first, cycleLength, totalBlinks) < first + cycleLength
  {
  }

  /** `solve_pt1` of this variant: 25 blinks, 0 on error. */
  method SolvePart1(input: string) returns (total: nat)
    ensures match StateAt(Stones(input), 25)
      case Ok(x) => total == Total(x)
      case Err(_) => total == 0
  {
    var r := ProcessDirectly(Stones(input), 25);
    total := if r.Ok? then r.value else 0;
  }

  /** `solve_pt2`: a blink that throws while looking for a cycle gives 0; a repeat within
      100 blinks gives the total of the recorded state at the final index; no repeat gives
      the total after 75 direct blinks. */
  method SolvePart2(input: string) returns (total: nat)
    ensures match CycleFrom(Stones(input), 100, 0)
      case Err(_) => total == 0
      case Ok(Some(rep)) =>
        var index := FinalStateIndex(rep.first, rep.cycleLength, 75);
        0 <= index && StateAt(Stones(input), index).Ok? && total == Total(StateAt(Stones(input), index).value)
      case Ok(None) => StateAt(Stones(input), 75).Ok? && total == Total(StateAt(Stones(input), 75).value)
  {
    var stones := Stones(input);
    var cycleData := DetectCycle(stones, 100);
    if cycleData.Err? {
      return 0;
    }
    if cycleData.value.Some? {
      var d := cycleData.value.value;
      FinalStateInHistory(d.firstRepeatIndex, d.cycleLength, 75);
      var finalStateIndex := FinalStateIndex(d.firstRepeatIndex, d.cycleLength, 75);
      total := Total(d.stateHistory[finalStateIndex]);
      assert StateAt(stones, finalStateIndex) == Ok(d.stateHistory[finalStateIndex]);
      return;
    }
    assert CycleFrom(stones, 100, 0) == Ok(None);
    ghost var history :| |history| == 100 && IsHistory(stones, history);
    ghost var final := history[75];
    assert StateAt(stones, 75) == Ok(final);
    var r := ProcessDirectly(stones, 75);
    assert r == Ok(Total(final));
    total := r.value;
  }
}
