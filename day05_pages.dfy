/** Day 5 of 2024 (solved_work_Day5/02_PUZZLE_SOLUTION/index.ts): page-ordering rules
    `a|b` say that page `a` must come before page `b` when an update prints both. Part 1
    sums the middle pages of the updates that break no rule and keeps the others; part 2
    re-orders each kept update with Kahn's algorithm and sums the middle pages of the
    orders that use every page.

    Pages are JavaScript numbers read with `Number`, so a page can be NaN (`None`).
    `indexOf` compares with `===`, under which NaN is never found, while `includes`,
    `Map` and `Set` compare with SameValueZero, under which NaN equals NaN: structural
    equality of `Option<int>` is the latter. */
module Day05Pages {
  import opened Wrappers
  import opened JsText

  /** A page number; `None` is NaN. */
  type Page = Option<int>

  datatype Rule = Rule(before: Page, after: Page)

  predicate Distinct(s: seq<Page>) {
    forall i, j :: 0 <= i < j < |s| ==> s[i] != s[j]
  }

  /** The pages of an update, as a set. */
  function Pages(u: seq<Page>): set<Page> {
    set p | p in u
  }

  /** JavaScript `+` on numbers: NaN absorbs. */
  function Add(a: Page, b: Page): (r: Page)
    ensures r.Some? <==> a.Some? && b.Some?
    ensures r.Some? ==> r.value == a.value + b.value
  {
    if a.Some? && b.Some? then Some(a.value + b.value) else None
  }

  // ---------------------------------------------------------------- parsing

  /** One rule line: the two sides of `|` read with `Number`. A line without `|` has no
      second element, which `map` does not visit, so `after` is `undefined`; it is
      written `None` here, like NaN, since neither is ever found by `indexOf`. */
  function ParseRule(line: string): Rule {
    var parts := Split(line, "|");
    Rule(JsNumber(parts[0]), if |parts| > 1 then JsNumber(parts[1]) else None)
  }

  /** One update line: its comma-separated fields read with `Number`. */
  function ParseUpdate(line: string): (u: seq<Page>)
    ensures |u| == |Split(line, ",")| >= 1
    ensures forall k :: 0 <= k < |u| ==> u[k] == JsNumber(Split(line, ",")[k])
  {
    var fields := Split(line, ",");
    seq(|fields|, k requires 0 <= k < |fields| => JsNumber(fields[k]))
  }

  /** `parseInput`: the trimmed input splits at the first blank line into rule lines and
      update lines; without a second section, reading its lines throws a `TypeError`. */
  function ParseInput(input: string): (r: Result<(seq<Rule>, seq<seq<Page>>)>)
    ensures r.Err? <==> |Split(Trim(input), "\n\n")| < 2
    ensures r.Ok? ==> r.value.0 == ParseRules(Split(Split(Trim(input), "\n\n")[0], "\n"))
    ensures r.Ok? ==> r.value.1 == ParseUpdates(Split(Split(Trim(input), "\n\n")[1], "\n"))
  {
    var sections := Split(Trim(input), "\n\n");
    if |sections| < 2 then Err("TypeError")
    else Ok((ParseRules(Split(sections[0], "\n")), ParseUpdates(Split(sections[1], "\n"))))
  }

  /** The rule section, one rule per line. */
  function ParseRules(lines: seq<string>): (rules: seq<Rule>)
    ensures |rules| == |lines|
    ensures forall k :: 0 <= k < |lines| ==> rules[k] == ParseRule(lines[k])
  {
    seq(|lines|, k requires 0 <= k < |lines| => ParseRule(lines[k]))
  }

  /** The update section, one update per line; no update is empty. */
  function ParseUpdates(lines: seq<string>): (updates: seq<seq<Page>>)
    ensures |updates| == |lines|
    ensures forall k :: 0 <= k < |lines| ==> updates[k] == ParseUpdate(lines[k]) && |updates[k]| >= 1
  {
    seq(|lines|, k requires 0 <= k < |lines| => ParseUpdate(lines[k]))
  }

  // ---------------------------------------------------------------- part 1

  /** `update.indexOf(p)`: the first position holding `p` under `===`, so never for NaN;
      -1 when there is none. */
  function IndexOfPage(u: seq<Page>, p: Page): (r: int)
    ensures p.None? ==> r == -1
    ensures r == -1 || (0 <= r < |u| && u[r] == p && p !in u[..r])
    ensures r == -1 && p.Some? ==> p !in u
  {
    if p.None? then -1 else IndexFrom(u, p, 0)
  }

  function IndexFrom(u: seq<Page>, p: Page, i: nat): (r: int)
    requires i <= |u|
    ensures r == -1 || (i <= r < |u| && u[r] == p && p !in u[i..r])
    ensures r == -1 ==> p !in u[i..]
    decreases |u| - i
  {
    if i == |u| then -1
    else if u[i] == p then i
    else
      var r := IndexFrom(u, p, i + 1);
      assert r != -1 ==> u[i..r] == [u[i]] + u[i + 1..r];
      assert u[i..] == [u[i]] + u[i + 1..];
      r
  }

  /** The rule's two pages are both found and in the wrong order. */
  predicate Violates(rule: Rule, u: seq<Page>) {
    IndexOfPage(u, rule.before) != -1 && IndexOfPage(u, rule.after) != -1
    && IndexOfPage(u, rule.before) > IndexOfPage(u, rule.after)
  }

  /** No rule is violated. */
  predicate ValidUpdate(rules: seq<Rule>, u: seq<Page>) {
    forall j :: 0 <= j < |rules| ==> !Violates(rules[j], u)
  }

  /** An update obeys the rules exactly when, for every rule whose two pages it prints,
      the first printing of the `before` page is not later than that of the `after` page
      (NaN pages are never found). */
  lemma ValidMeansOrdered(rules: seq<Rule>, u: seq<Page>)
    ensures ValidUpdate(rules, u) <==>
      forall j, a, b ::
        (0 <= j < |rules| && 0 <= a < |u| && 0 <= b < |u|
         && u[a] == rules[j].before && u[b] == rules[j].after && u[a].Some? && u[b].Some?
         && rules[j].before !in u[..a] && rules[j].after !in u[..b]) ==> a <= b
  {
    if ValidUpdate(rules, u) {
      forall j, a, b | 0 <= j < |rules| && 0 <= a < |u| && 0 <= b < |u|
        && u[a] == rules[j].before && u[b] == rules[j].after && u[a].Some? && u[b].Some?
        && rules[j].before !in u[..a] && rules[j].after !in u[..b]
        ensures a <= b
      {
        FirstIndex(u, rules[j].before, a);
        FirstIndex(u, rules[j].after, b);
        assert !Violates(rules[j], u);
      }
    } else {
      var j :| 0 <= j < |rules| && Violates(rules[j], u);
      var a, b := IndexOfPage(u, rules[j].before), IndexOfPage(u, rules[j].after);
      assert u[a] == rules[j].before && u[b] == rules[j].after && a > b;
    }
  }

  /** A first occurrence is what `indexOf` finds. */
  lemma FirstIndex(u: seq<Page>, p: Page, a: nat)
    requires a < |u| && u[a] == p && p.Some? && p !in u[..a]
    ensures IndexOfPage(u, p) == a
  {
    forall k | 0 <= k < a ensures u[k] != p {
      assert u[..a][k] == u[k];
    }
    FirstFrom(u, p, 0, a);
  }

  lemma {:induction false} FirstFrom(u: seq<Page>, p: Page, i: nat, a: nat)
    requires i <= a < |u| && u[a] == p
    requires forall k :: i <= k < a ==> u[k] != p
    ensures IndexFrom(u, p, i) == a
    decreases a - i
  {
    if i < a {
      FirstFrom(u, p, i + 1, a);
    }
  }

  /** `getMiddlePage`: the page with as many pages after it as before it, or one fewer
      after it when the update has an even length; an empty update has no page there,
      and `undefined` added to a number gives NaN. */
  function MiddlePage(u: seq<Page>): (p: Page)
    ensures u == [] ==> p.None?
    ensures u != [] ==> exists m :: 0 <= m < |u| && u[m] == p && (|u| - 1 - m == m || |u| - m == m)
  {
    if u == [] then None
    else
      var m := |u| / 2;
      assert u[m] == u[m];
      u[m]
  }

  /** The sum over the valid updates of their middle pages, starting from 0. */
  function SumValid(rules: seq<Rule>, updates: seq<seq<Page>>): Page
  {
    if updates == [] then Some(0)
    else
      var last := updates[|updates| - 1];
      var sum := SumValid(rules, updates[..|updates| - 1]);
      if ValidUpdate(rules, last) then Add(sum, MiddlePage(last)) else sum
  }

  /** The updates that break some rule, in input order. */
  function Invalid(rules: seq<Rule>, updates: seq<seq<Page>>): (r: seq<seq<Page>>)
    ensures |r| <= |updates|
    ensures forall k :: 0 <= k < |r| ==> r[k] in updates && !ValidUpdate(rules, r[k])
  {
    if updates == [] then []
    else
      var last := updates[|updates| - 1];
      Invalid(rules, updates[..|updates| - 1]) + (if ValidUpdate(rules, last) then [] else [last])
  }

  /** The updates that obey the rules, in input order. */
  function Valid(rules: seq<Rule>, updates: seq<seq<Page>>): (r: seq<seq<Page>>)
    ensures forall k :: 0 <= k < |r| ==> r[k] in updates && ValidUpdate(rules, r[k])
  {
    if updates == [] then []
    else
      var last := updates[|updates| - 1];
      Valid(rules, updates[..|updates| - 1]) + (if ValidUpdate(rules, last) then [last] else [])
  }

  /** Every update is either summed or kept for part 2, never both. */
  lemma {:induction false} ValidInvalidPartition(rules: seq<Rule>, updates: seq<seq<Page>>)
    ensures |Valid(rules, updates)| + |Invalid(rules, updates)| == |updates|
  {
    if updates != [] {
      ValidInvalidPartition(rules, updates[..|updates| - 1]);
    }
  }

  /** A sum with no NaN page is the sum of the middle pages of the valid updates. */
  lemma {:induction false} SumValidIsSum(rules: seq<Rule>, updates: seq<seq<Page>>)
    requires forall k :: 0 <= k < |updates| ==> MiddlePage(updates[k]).Some?
    ensures SumValid(rules, updates).Some?
    ensures SumValid(rules, updates).value == SumMiddles(Valid(rules, updates))
  {
    if updates != [] {
      var init := updates[..|updates| - 1];
      var last := updates[|updates| - 1];
      SumValidIsSum(rules, init);
      if ValidUpdate(rules, last) {
        SumMiddlesAppend(Valid(rules, init), [last]);
      } else {
        assert Valid(rules, updates) == Valid(rules, init) + [];
        assert Valid(rules, init) + [] == Valid(rules, init);
      }
    }
  }

  /** The plain integer sum of the middle pages, NaN counted as 0. */
  function SumMiddles(us: seq<seq<Page>>): int {
    if us == [] then 0
    else SumMiddles(us[..|us| - 1]) + (var p := MiddlePage(us[|us| - 1]); if p.Some? then p.value else 0)
  }

  lemma {:induction false} SumMiddlesAppend(a: seq<seq<Page>>, b: seq<seq<Page>>)
    requires |b| == 1
    ensures SumMiddles(a + b) == SumMiddles(a) + SumMiddles(b)
  {
    assert (a + b)[..|a + b| - 1] == a;
    assert b[..0] == [];
  }

  // ---------------------------------------------------------------- the rule graph

  /** `update.includes(p)` for both pages of the rule (SameValueZero, so NaN is found). */
  predicate Applies(r: Rule, u: seq<Page>) {
    r.before in u && r.after in u
  }

  /** The `Set` of pages after `p` once all rules are added: in order of first addition,
      each once. */
  function Targets(rules: seq<Rule>, u: seq<Page>, p: Page): (t: seq<Page>)
    ensures Distinct(t)
    ensures forall n :: n in t ==> n in u
  {
    if rules == [] then []
    else
      var t := Targets(rules[..|rules| - 1], u, p);
      var r := rules[|rules| - 1];
      if Applies(r, u) && r.before == p then Adjoin(t, r.after) else t
  }

  /** `n` follows `p` in the graph exactly when an applicable rule says so. */
  lemma {:induction false} TargetsMeaning(rules: seq<Rule>, u: seq<Page>, p: Page, n: Page)
    ensures n in Targets(rules, u, p) <==> exists j :: 0 <= j < |rules| && Applies(rules[j], u) && rules[j] == Rule(p, n)
  {
    if rules != [] {
      var init := rules[..|rules| - 1];
      TargetsMeaning(init, u, p, n);
      if exists j :: 0 <= j < |rules| && Applies(rules[j], u) && rules[j] == Rule(p, n) {
        var j :| 0 <= j < |rules| && Applies(rules[j], u) && rules[j] == Rule(p, n);
        if j < |init| {
          assert init[j] == rules[j];
        }
      }
      if exists j :: 0 <= j < |init| && Applies(init[j], u) && init[j] == Rule(p, n) {
        var j :| 0 <= j < |init| && Applies(init[j], u) && init[j] == Rule(p, n);
        assert rules[j] == init[j];
      }
    }
  }

  /** The number of applicable rules into `n` whose `before` page lies in `from`. */
  function Count(rules: seq<Rule>, u: seq<Page>, n: Page, from: set<Page>): nat {
    if rules == [] then 0
    else
      var r := rules[|rules| - 1];
      Count(rules[..|rules| - 1], u, n, from) + (if Applies(r, u) && r.after == n && r.before in from then 1 else 0)
  }

  /** The in-degree that the rule loop of `topologicalSort` leaves for `n`. */
  function InDegree(rules: seq<Rule>, u: seq<Page>, n: Page): nat {
    Count(rules, u, n, Pages(u))
  }

  lemma {:induction false} CountSplit(rules: seq<Rule>, u: seq<Page>, n: Page, from: set<Page>, a: Page)
    requires a !in from
    ensures Count(rules, u, n, from + {a}) == Count(rules, u, n, from) + Count(rules, u, n, {a})
  {
    if rules != [] {
      CountSplit(rules[..|rules| - 1], u, n, from, a);
    }
  }

  lemma {:induction false} CountGrows(rules: seq<Rule>, u: seq<Page>, n: Page, from: set<Page>, to: set<Page>)
    requires from <= to
    ensures Count(rules, u, n, from) <= Count(rules, u, n, to)
  {
    if rules != [] {
      CountGrows(rules[..|rules| - 1], u, n, from, to);
    }
  }

  /** An edge `p -> n` comes from at least one rule. */
  lemma {:induction false} EdgeCounted(rules: seq<Rule>, u: seq<Page>, p: Page, n: Page)
    requires n in Targets(rules, u, p)
    ensures Count(rules, u, n, {p}) >= 1
  {
    var init := rules[..|rules| - 1];
    if n in Targets(init, u, p) {
      EdgeCounted(init, u, p, n);
    }
  }

  /** A page with an edge into it has a positive in-degree. */
  lemma EdgeDegree(rules: seq<Rule>, u: seq<Page>, p: Page, n: Page)
    requires p in u && n in Targets(rules, u, p)
    ensures InDegree(rules, u, n) >= 1
  {
    EdgeCounted(rules, u, p, n);
    CountGrows(rules, u, n, {p}, Pages(u));
  }

  /** `graph` holds, for each page of the update, the pages after it by the rules. */
  predicate IsGraph(graph: map<Page, seq<Page>>, rules: seq<Rule>, u: seq<Page>) {
    graph.Keys == Pages(u) && forall p :: p in graph ==> graph[p] == Targets(rules, u, p)
  }

  /** `deg` holds, for each page of the update, the number of rules into it. */
  predicate IsDegrees(deg: map<Page, int>, rules: seq<Rule>, u: seq<Page>) {
    deg.Keys == Pages(u) && forall n :: n in deg ==> deg[n] == InDegree(rules, u, n)
  }

  /** One more rule: when it applies, its `after` page joins the set of its `before`
      page. */
  lemma GraphStep(rules: seq<Rule>, u: seq<Page>, k: nat, graph: map<Page, seq<Page>>)
    requires k < |rules| && IsGraph(graph, rules[..k], u)
    ensures var r := rules[k];
            Applies(r, u) ==> r.before in graph && IsGraph(graph[r.before := Adjoin(graph[r.before], r.after)], rules[..k + 1], u)
    ensures !Applies(rules[k], u) ==> IsGraph(graph, rules[..k + 1], u)
  {
    assert rules[..k + 1][..k] == rules[..k];
  }

  /** One more rule: when it applies, its `after` page gains one in-degree. */
  lemma DegreeStep(rules: seq<Rule>, u: seq<Page>, k: nat, inDegree: map<Page, int>)
    requires k < |rules| && IsDegrees(inDegree, rules[..k], u)
    ensures var r := rules[k];
            Applies(r, u) ==> r.after in inDegree && IsDegrees(inDegree[r.after := inDegree[r.after] + 1], rules[..k + 1], u)
    ensures !Applies(rules[k], u) ==> IsDegrees(inDegree, rules[..k + 1], u)
  {
    assert rules[..k + 1][..k] == rules[..k];
  }

  /** `Set.add`: a page already present stays where it is; a new one goes last. */
  function Adjoin(t: seq<Page>, x: Page): (r: seq<Page>)
    ensures forall y :: y in r <==> y in t || y == x
  {
    if x in t then t else t + [x]
  }

  /** Before any rule, the maps hold each page of the update with no successor and
      in-degree 0, so adding the next page extends them by one entry. */
  lemma InitStep(u: seq<Page>, i: nat, graph: map<Page, seq<Page>>, inDegree: map<Page, int>)
    requires i < |u| && IsGraph(graph, [], u[..i]) && IsDegrees(inDegree, [], u[..i])
    ensures IsGraph(graph[u[i] := []], [], u[..i + 1]) && IsDegrees(inDegree[u[i] := 0], [], u[..i + 1])
  {
    assert Pages(u[..i + 1]) == Pages(u[..i]) + {u[i]} by {
      assert u[..i + 1] == u[..i] + [u[i]];
    }
  }

  /** The first `forEach` of `topologicalSort`: every page of the update with no
      successor and in-degree 0. */
  method InitMaps(update: seq<Page>) returns (graph: map<Page, seq<Page>>, inDegree: map<Page, int>)
    ensures IsGraph(graph, [], update) && IsDegrees(inDegree, [], update)
  {
    graph := map[];
    inDegree := map[];
    var i := 0;
    while i < |update|
      invariant 0 <= i <= |update|
      invariant IsGraph(graph, [], update[..i]) && IsDegrees(inDegree, [], update[..i])
    {
      InitStep(update, i, graph, inDegree);
      graph := graph[update[i] := []];
      inDegree := inDegree[update[i] := 0];
      i := i + 1;
    }
    assert update[..|update|] == update;
  }

  /** The graph-building loops of `topologicalSort`: every page of the update starts with
      no successor and in-degree 0, then each applicable rule adds its edge. */
  method BuildGraph(rules: seq<Rule>, update: seq<Page>)
    returns (graph: map<Page, seq<Page>>, inDegree: map<Page, int>)
    ensures IsGraph(graph, rules, update) && IsDegrees(inDegree, rules, update)
  {
    graph, inDegree := InitMaps(update);
    assert rules[..0] == [];
    var k := 0;
    while k < |rules|
      invariant 0 <= k <= |rules|
      invariant IsGraph(graph, rules[..k], update) && IsDegrees(inDegree, rules[..k], update)
    {
      var rule := rules[k];
      GraphStep(rules, update, k, graph);
      DegreeStep(rules, update, k, inDegree);
      if rule.before in update && rule.after in update {
        graph := graph[rule.before := Adjoin(graph[rule.before], rule.after)];
        inDegree := inDegree[rule.after := inDegree[rule.after] + 1];
      }
      k := k + 1;
    }
    assert rules[..|rules|] == rules;
  }

  // ---------------------------------------------------------------- Kahn's loop

  /** The pages of `v` with in-degree 0, in order and with repeats. */
  function Sources(rules: seq<Rule>, u: seq<Page>, v: seq<Page>): seq<Page> {
    if v == [] then []
    else Sources(rules, u, v[..|v| - 1]) + (if InDegree(rules, u, v[|v| - 1]) == 0 then [v[|v| - 1]] else [])
  }

  lemma {:induction false} SourcesCount(rules: seq<Rule>, u: seq<Page>, v: seq<Page>, n: Page)
    ensures multiset(Sources(rules, u, v))[n] == if InDegree(rules, u, n) == 0 then multiset(v)[n] else 0
    ensures forall x :: x in Sources(rules, u, v) ==> x in v && InDegree(rules, u, x) == 0
  {
    if v != [] {
      SourcesCount(rules, u, v[..|v| - 1], n);
      assert v == v[..|v| - 1] + [v[|v| - 1]];
    }
  }

  /** The number of pages of `result` with an edge into `n`, counted with repeats. */
  function Popped(rules: seq<Rule>, u: seq<Page>, n: Page, result: seq<Page>): nat {
    if result == [] then 0
    else Popped(rules, u, n, result[..|result| - 1]) + (if n in Targets(rules, u, result[|result| - 1]) then 1 else 0)
  }

  /** Distinct popped pages with an edge into `n` account for at most as many rules. */
  lemma {:induction false} PoppedBound(rules: seq<Rule>, u: seq<Page>, n: Page, result: seq<Page>)
    requires Distinct(result)
    ensures Popped(rules, u, n, result) <= Count(rules, u, n, Pages(result))
  {
    if result != [] {
      var init := result[..|result| - 1];
      var c := result[|result| - 1];
      PoppedBound(rules, u, n, init);
      assert c !in Pages(init);
      assert Pages(result) == Pages(init) + {c} by {
        assert result == init + [c];
      }
      CountSplit(rules, u, n, Pages(init), c);
      if n in Targets(rules, u, c) {
        EdgeCounted(rules, u, c, n);
      }
    }
  }

  /** When the distinct popped pages account for the whole in-degree of `n`, every page
      with an edge into `n` has been popped. */
  lemma AllPredecessorsPopped(rules: seq<Rule>, u: seq<Page>, n: Page, result: seq<Page>)
    requires Distinct(result) && Pages(result) <= Pages(u)
    requires Popped(rules, u, n, result) == InDegree(rules, u, n)
    ensures forall p :: p in u && n in Targets(rules, u, p) ==> p in result
  {
    forall p | p in u && n in Targets(rules, u, p) ensures p in result {
      if p !in result {
        PoppedBound(rules, u, n, result);
        assert p !in Pages(result);
        CountSplit(rules, u, n, Pages(result), p);
        EdgeCounted(rules, u, p, n);
        CountGrows(rules, u, n, Pages(result) + {p}, Pages(u));
        assert false;
      }
    }
  }

  /** Each page's in-degree is its starting in-degree less one per popped predecessor,
      plus one for each of the neighbours `nbs[i..]` not yet visited. */
  ghost predicate Counted(rules: seq<Rule>, u: seq<Page>, deg: map<Page, int>, result: seq<Page>, nbs: seq<Page>, i: nat)
    requires i <= |nbs|
  {
    deg.Keys == Pages(u)
    && forall n :: n in u ==>
         deg[n] == InDegree(rules, u, n) - Popped(rules, u, n, result) + (if n in nbs[i..] then 1 else 0)
  }

  /** How often each page has been queued (popped or still waiting): a source as often
      as the update lists it, any other page once when its in-degree has reached 0 and
      never before. */
  ghost predicate Pushed(rules: seq<Rule>, u: seq<Page>, deg: map<Page, int>, result: seq<Page>, queue: seq<Page>) {
    deg.Keys == Pages(u)
    && (forall x :: x in result ==> x in u)
    && (forall x :: x in queue ==> x in u)
    && forall n :: n in u ==>
         var m := multiset(result)[n] + multiset(queue)[n];
         (InDegree(rules, u, n) == 0 ==> m == multiset(u)[n])
         && (InDegree(rules, u, n) > 0 ==> m == if deg[n] <= 0 then 1 else 0)
  }

  /** With distinct pages, every popped page comes after all the pages with an edge into
      it, and every queued page has all of them popped. */
  ghost predicate Ordered(rules: seq<Rule>, u: seq<Page>, result: seq<Page>, queue: seq<Page>) {
    Distinct(u) ==>
      (forall k, p :: 0 <= k < |result| && p in u && result[k] in Targets(rules, u, p) ==> p in result[..k])
      && (forall q, p :: q in queue && p in u && q in Targets(rules, u, p) ==> p in result)
  }

  /** The queue never holds more than the update: popped and queued pages together are
      a sub-multiset of the update. */
  lemma PushedBound(rules: seq<Rule>, u: seq<Page>, deg: map<Page, int>, result: seq<Page>, queue: seq<Page>)
    requires Pushed(rules, u, deg, result, queue)
    ensures multiset(result) + multiset(queue) <= multiset(u)
    ensures |result| + |queue| <= |u|
  {
    var m := multiset(result) + multiset(queue);
    forall n ensures m[n] <= multiset(u)[n] {
      if n in u {
        assert multiset(u)[n] >= 1;
      } else {
        assert n !in result && n !in queue;
      }
    }
    SubSize(m, multiset(u));
  }

  lemma SubSize(a: multiset<Page>, b: multiset<Page>)
    requires a <= b
    ensures |a| <= |b|
  {
    assert b == a + (b - a);
  }

  /** A sub-multiset of a list without repeats has no repeats. */
  lemma SubDistinct(s: seq<Page>, u: seq<Page>)
    requires multiset(s) <= multiset(u) && Distinct(u)
    ensures Distinct(s)
  {
    forall i, j | 0 <= i < j < |s| ensures s[i] != s[j] {
      if s[i] == s[j] {
        assert multiset(s)[s[i]] >= 2 by {
          assert s == s[..i] + [s[i]] + s[i + 1..j] + [s[j]] + s[j + 1..];
        }
        CountInDistinct(u, s[i]);
      }
    }
  }

  lemma {:induction false} CountInDistinct(u: seq<Page>, x: Page)
    requires Distinct(u)
    ensures multiset(u)[x] <= 1
  {
    if u != [] {
      var init := u[..|u| - 1];
      assert u == init + [u[|u| - 1]];
      CountInDistinct(init, x);
      if x == u[|u| - 1] {
        assert x !in init;
      }
    }
  }

  lemma PoppedAppend(rules: seq<Rule>, u: seq<Page>, n: Page, result: seq<Page>, c: Page)
    ensures Popped(rules, u, n, result + [c]) == Popped(rules, u, n, result) + (if n in Targets(rules, u, c) then 1 else 0)
  {
    assert (result + [c])[..|result|] == result;
  }

  /** Popping the head `c` of the queue: its neighbours are all still to be visited, and
      each in-degree is unchanged. */
  lemma PopCounted(rules: seq<Rule>, u: seq<Page>, deg: map<Page, int>, result: seq<Page>, c: Page)
    requires Counted(rules, u, deg, result, [], 0)
    ensures Counted(rules, u, deg, result + [c], Targets(rules, u, c), 0)
  {
    var nbs := Targets(rules, u, c);
    assert nbs[0..] == nbs;
    forall n | n in u
      ensures deg[n] == InDegree(rules, u, n) - Popped(rules, u, n, result + [c]) + (if n in nbs[0..] then 1 else 0)
    {
      PoppedAppend(rules, u, n, result, c);
    }
  }

  /** Popping the head of the queue moves it to the result: nothing is pushed anew. */
  lemma PopPushed(rules: seq<Rule>, u: seq<Page>, deg: map<Page, int>, result: seq<Page>, queue: seq<Page>)
    requires |queue| > 0 && Pushed(rules, u, deg, result, queue)
    ensures Pushed(rules, u, deg, result + [queue[0]], queue[1..])
  {
    assert queue == [queue[0]] + queue[1..];
    assert multiset(result + [queue[0]]) + multiset(queue[1..]) == multiset(result) + multiset(queue);
    assert forall x :: x in queue[1..] ==> x in queue;
  }

  /** The popped page had all its predecessors popped before it. */
  lemma PopOrdered(rules: seq<Rule>, u: seq<Page>, result: seq<Page>, queue: seq<Page>)
    requires |queue| > 0 && Ordered(rules, u, result, queue)
    ensures Ordered(rules, u, result + [queue[0]], queue[1..])
  {
    var result' := result + [queue[0]];
    if Distinct(u) {
      forall k, p | 0 <= k < |result'| && p in u && result'[k] in Targets(rules, u, p)
        ensures p in result'[..k]
      {
        if k < |result| {
          assert result'[..k] == result[..k];
        } else {
          assert result'[..k] == result;
          assert queue[0] in queue;
        }
      }
      forall q, p | q in queue[1..] && p in u && q in Targets(rules, u, p)
        ensures p in result'
      {
        assert q in queue;
        assert p in result;
        assert result'[..|result|] == result;
      }
    }
  }

  /** Visiting neighbour `nbs[i]` of the last popped page: its in-degree drops by one and
      it is no longer pending. */
  lemma VisitCounted(rules: seq<Rule>, u: seq<Page>, deg: map<Page, int>, result: seq<Page>, nbs: seq<Page>, i: nat)
    requires i < |nbs| && Distinct(nbs) && nbs[i] in u
    requires Counted(rules, u, deg, result, nbs, i)
    ensures Counted(rules, u, deg[nbs[i] := deg[nbs[i]] - 1], result, nbs, i + 1)
  {
    assert nbs[i..] == [nbs[i]] + nbs[i + 1..];
    assert nbs[i] !in nbs[i + 1..];
  }

  /** Visiting a neighbour with a positive in-degree queues it exactly when its count
      reaches 0, which is the one time it goes from positive to not positive. */
  lemma VisitPushed(rules: seq<Rule>, u: seq<Page>, deg: map<Page, int>, result: seq<Page>, queue: seq<Page>, nb: Page)
    requires nb in u && InDegree(rules, u, nb) > 0
    requires Pushed(rules, u, deg, result, queue)
    ensures var deg' := deg[nb := deg[nb] - 1];
            Pushed(rules, u, deg', result, if deg'[nb] == 0 then queue + [nb] else queue)
  {
    var deg' := deg[nb := deg[nb] - 1];
    var queue' := if deg'[nb] == 0 then queue + [nb] else queue;
    assert multiset(queue') == multiset(queue) + (if deg'[nb] == 0 then multiset{nb} else multiset{});
  }

  /** With distinct pages, a neighbour whose count reaches 0 has had every predecessor
      popped, so it may be queued. */
  lemma VisitOrdered(rules: seq<Rule>, u: seq<Page>, deg: map<Page, int>, result: seq<Page>, queue: seq<Page>, nbs: seq<Page>, i: nat)
    requires i < |nbs| && nbs[i] in u
    requires Counted(rules, u, deg, result, nbs, i) && Pushed(rules, u, deg, result, queue) && Ordered(rules, u, result, queue)
    ensures var nb := nbs[i];
            Ordered(rules, u, result, if deg[nb] - 1 == 0 then queue + [nb] else queue)
  {
    var nb := nbs[i];
    if Distinct(u) && deg[nb] - 1 == 0 {
      assert nb in nbs[i..];
      PushedBound(rules, u, deg, result, queue);
      SubDistinct(result, u);
      AllPredecessorsPopped(rules, u, nb, result);
      assert forall q :: q in queue + [nb] ==> q in queue || q == nb;
    }
  }

  /** The `forEach` over the neighbours of the page just popped. */
  method VisitNeighbors(ghost rules: seq<Rule>, ghost u: seq<Page>, nbs: seq<Page>,
                        deg: map<Page, int>, queue: seq<Page>, ghost result: seq<Page>)
    returns (deg': map<Page, int>, queue': seq<Page>)
    requires |result| > 0 && result[|result| - 1] in u && nbs == Targets(rules, u, result[|result| - 1])
    requires Counted(rules, u, deg, result, nbs, 0) && Pushed(rules, u, deg, result, queue) && Ordered(rules, u, result, queue)
    ensures Counted(rules, u, deg', result, [], 0) && Pushed(rules, u, deg', result, queue') && Ordered(rules, u, result, queue')
  {
    deg', queue' := deg, queue;
    var i := 0;
    while i < |nbs|
      invariant 0 <= i <= |nbs|
      invariant Counted(rules, u, deg', result, nbs, i) && Pushed(rules, u, deg', result, queue') && Ordered(rules, u, result, queue')
    {
      var neighbor := nbs[i];
      EdgeDegree(rules, u, result[|result| - 1], neighbor);
      VisitOrdered(rules, u, deg', result, queue', nbs, i);
      VisitPushed(rules, u, deg', result, queue', neighbor);
      VisitCounted(rules, u, deg', result, nbs, i);
      deg' := deg'[neighbor := deg'[neighbor] - 1];
      if deg'[neighbor] == 0 {
        queue' := queue' + [neighbor];
      }
      i := i + 1;
    }
    assert nbs[i..] == [][0..];
  }

  /** The queue loop of `topologicalSort`: pop the head, append it to the result, and
      visit its neighbours. It ends because popped and queued pages never outnumber the
      update. */
  method Kahn(rules: seq<Rule>, update: seq<Page>, graph: map<Page, seq<Page>>, inDegree: map<Page, int>, sources: seq<Page>)
    returns (result: seq<Page>)
    requires IsGraph(graph, rules, update) && IsDegrees(inDegree, rules, update)
    requires Counted(rules, update, inDegree, [], [], 0) && Pushed(rules, update, inDegree, [], sources)
    requires Ordered(rules, update, [], sources)
    ensures multiset(result) <= multiset(update)
    ensures Ordered(rules, update, result, [])
  {
    var queue := sources;
    var deg := inDegree;
    result := [];
    PushedBound(rules, update, deg, result, queue);
    while |queue| > 0
      invariant Counted(rules, update, deg, result, [], 0) && Pushed(rules, update, deg, result, queue)
      invariant Ordered(rules, update, result, queue)
      invariant |result| + |queue| <= |update|
      decreases |update| - |result|
    {
      var current := queue[0];
      PopCounted(rules, update, deg, result, current);
      PopPushed(rules, update, deg, result, queue);
      PopOrdered(rules, update, result, queue);
      queue := queue[1..];
      result := result + [current];
      deg, queue := VisitNeighbors(rules, update, graph[current], deg, queue, result);
      PushedBound(rules, update, deg, result, queue);
    }
    PushedBound(rules, update, deg, result, queue);
  }

  /** Whether a sort's result uses every page of its update. */
  predicate Complete(s: seq<Page>, u: seq<Page>) {
    |s| == |u|
  }

  /** What `topologicalSort` promises: it returns pages of the update, no page more often
      than the update lists it; and when the update has no repeated page, every page of
      the result comes after every page that a rule puts before it. */
  ghost predicate SortOf(rules: seq<Rule>, u: seq<Page>, s: seq<Page>) {
    multiset(s) <= multiset(u)
    && (Distinct(u) ==> forall j, k :: 0 <= j < |rules| && 0 <= k < |s| && Applies(rules[j], u) && rules[j].after == s[k]
                          ==> rules[j].before in s[..k])
  }

  /** `topologicalSort`: Kahn's algorithm over the rules that apply to the update. */
  method TopologicalSort(rules: seq<Rule>, update: seq<Page>) returns (result: seq<Page>)
    ensures SortOf(rules, update, result)
    ensures |result| <= |update|
  {
    var graph, inDegree := BuildGraph(rules, update);
    var queue := FindSources(rules, update, inDegree);
    StartState(rules, update, inDegree);
    result := Kahn(rules, update, graph, inDegree, queue);
    SortFromOrdered(rules, update, result);
    SubSize(multiset(result), multiset(update));
  }

  /** The `forEach` that queues every page of the update whose in-degree is 0. */
  method FindSources(ghost rules: seq<Rule>, update: seq<Page>, inDegree: map<Page, int>) returns (queue: seq<Page>)
    requires IsDegrees(inDegree, rules, update)
    ensures queue == Sources(rules, update, update)
  {
    queue := [];
    var i := 0;
    while i < |update|
      invariant 0 <= i <= |update|
      invariant queue == Sources(rules, update, update[..i])
    {
      assert update[..i + 1][..i] == update[..i];
      if inDegree[update[i]] == 0 {
        queue := queue + [update[i]];
      }
      i := i + 1;
    }
    assert update[..|update|] == update;
  }

  /** Before the queue loop, the bookkeeping holds with the sources queued. */
  lemma StartState(rules: seq<Rule>, u: seq<Page>, inDegree: map<Page, int>)
    requires IsDegrees(inDegree, rules, u)
    ensures Counted(rules, u, inDegree, [], [], 0)
    ensures Pushed(rules, u, inDegree, [], Sources(rules, u, u))
    ensures Ordered(rules, u, [], Sources(rules, u, u))
  {
    var q := Sources(rules, u, u);
    forall n ensures multiset(q)[n] == if InDegree(rules, u, n) == 0 then multiset(u)[n] else 0 {
      SourcesCount(rules, u, u, n);
    }
    SourcesCount(rules, u, u, None);
    forall q', p | q' in q && p in u && q' in Targets(rules, u, p) ensures false {
      EdgeDegree(rules, u, p, q');
    }
  }

  /** The loop's ordering invariant, stated with the rules. */
  lemma SortFromOrdered(rules: seq<Rule>, u: seq<Page>, s: seq<Page>)
    requires multiset(s) <= multiset(u) && Ordered(rules, u, s, [])
    ensures SortOf(rules, u, s)
  {
    if Distinct(u) {
      forall j, k | 0 <= j < |rules| && 0 <= k < |s| && Applies(rules[j], u) && rules[j].after == s[k]
        ensures rules[j].before in s[..k]
      {
        TargetsMeaning(rules, u, rules[j].before, s[k]);
      }
    }
  }

  /** A complete sort of an update without repeated pages is a re-ordering of it that
      obeys every rule, so it would pass `isValidUpdate`. */
  lemma CompleteSortIsValid(rules: seq<Rule>, u: seq<Page>, s: seq<Page>)
    requires SortOf(rules, u, s) && Distinct(u) && Complete(s, u)
    ensures multiset(s) == multiset(u)
    ensures ValidUpdate(rules, s)
  {
    SubEqual(s, u);
    SubDistinct(s, u);
    forall j | 0 <= j < |rules| ensures !Violates(rules[j], s) {
      var a, b := IndexOfPage(s, rules[j].before), IndexOfPage(s, rules[j].after);
      if a != -1 && b != -1 {
        assert rules[j].before in multiset(s) && rules[j].after in multiset(s);
        assert Applies(rules[j], u);
        assert rules[j].before in s[..b];
        var a' :| 0 <= a' < b && s[..b][a'] == rules[j].before;
        assert s[a'] == s[a];
      }
    }
  }

  /** A sub-multiset as large as the whole is the whole. */
  lemma SubEqual(s: seq<Page>, u: seq<Page>)
    requires multiset(s) <= multiset(u) && |s| == |u|
    ensures multiset(s) == multiset(u)
  {
    var d := multiset(u) - multiset(s);
    assert multiset(u) == multiset(s) + d;
  }

  // ---------------------------------------------------------------- the solution object

  /** The sum over the kept updates of the middle page of each complete sort. */
  function SumComplete(us: seq<seq<Page>>, sorts: seq<seq<Page>>): Page
    requires |sorts| == |us|
  {
    if us == [] then Some(0)
    else
      var k := |us| - 1;
      var sum := SumComplete(us[..k], sorts[..k]);
      if Complete(sorts[k], us[k]) then Add(sum, MiddlePage(sorts[k])) else sum
  }

  /** An update whose sort misses a page adds nothing: when no sort is complete the sum
      stays 0, and an incomplete last sort leaves the sum of the others. */
  lemma {:induction false} SumCompleteSkips(us: seq<seq<Page>>, sorts: seq<seq<Page>>)
    requires |sorts| == |us|
    ensures (forall k :: 0 <= k < |us| ==> !Complete(sorts[k], us[k])) ==> SumComplete(us, sorts) == Some(0)
    ensures |us| > 0 && !Complete(sorts[|us| - 1], us[|us| - 1]) ==>
              SumComplete(us, sorts) == SumComplete(us[..|us| - 1], sorts[..|us| - 1])
  {
    if us != [] && forall k :: 0 <= k < |us| ==> !Complete(sorts[k], us[k]) {
      var n := |us| - 1;
      forall k | 0 <= k < n ensures !Complete(sorts[..n][k], us[..n][k]) {
        assert sorts[..n][k] == sorts[k] && us[..n][k] == us[k];
      }
      SumCompleteSkips(us[..n], sorts[..n]);
    }
  }

  /** `class Solution`: the parsed rules and updates, and the updates that part 1 found
      invalid. */
  class Solution {
    var rules: seq<Rule>
    var updates: seq<seq<Page>>
    var invalidUpdates: seq<seq<Page>>

    /** The constructor parses the input; the source throws when there is no update
        section, so callers check `ParseInput` first. */
    constructor(input: string)
      requires ParseInput(input).Ok?
      ensures (rules, updates) == ParseInput(input).value && invalidUpdates == []
    {
      var parsed := ParseInput(input).value;
      rules := parsed.0;
      updates := parsed.1;
      invalidUpdates := [];
    }

    /** `isValidUpdate`: the rule loop returns false at the first violated rule. */
    method IsValidUpdate(update: seq<Page>) returns (b: bool)
      ensures b <==> ValidUpdate(rules, update)
    {
      for j := 0 to |rules|
        invariant forall i :: 0 <= i < j ==> !Violates(rules[i], update)
      {
        var beforeIndex := IndexOfPage(update, rules[j].before);
        var afterIndex := IndexOfPage(update, rules[j].after);
        if beforeIndex != -1 && afterIndex != -1 {
          if beforeIndex > afterIndex {
            return false;
          }
        }
      }
      return true;
    }

    /** `solvePart1`: the sum of the middle pages of the valid updates; the invalid ones
        are appended to `invalidUpdates` in order. */
    method SolvePart1() returns (sum: Page)
      modifies this
      ensures rules == old(rules) && updates == old(updates)
      ensures sum == SumValid(rules, updates)
      ensures invalidUpdates == old(invalidUpdates) + Invalid(rules, updates)
    {
      sum := Some(0);
      var k := 0;
      while k < |updates|
        invariant 0 <= k <= |updates| && rules == old(rules) && updates == old(updates)
        invariant sum == SumValid(rules, updates[..k])
        invariant invalidUpdates == old(invalidUpdates) + Invalid(rules, updates[..k])
      {
        var update := updates[k];
        assert updates[..k + 1][..k] == updates[..k];
        var valid := IsValidUpdate(update);
        if valid {
          sum := Add(sum, MiddlePage(update));
        } else {
          invalidUpdates := invalidUpdates + [update];
        }
        k := k + 1;
      }
      assert updates[..|updates|] == updates;
    }

    /** `solvePart2`: each kept update is sorted, and the middle page of each complete
        sort is added. */
    method SolvePart2() returns (sum: Page, ghost sorts: seq<seq<Page>>)
      ensures SortedSum(rules, invalidUpdates, sorts, sum)
    {
      sum := Some(0);
      sorts := [];
      var k := 0;
      while k < |invalidUpdates|
        invariant 0 <= k <= |invalidUpdates| && |sorts| == k
        invariant forall i :: 0 <= i < k ==> SortOf(rules, invalidUpdates[i], sorts[i])
        invariant sum == SumComplete(invalidUpdates[..k], sorts)
      {
        var update := invalidUpdates[k];
        var correctedOrder := TopologicalSort(rules, update);
        assert invalidUpdates[..k + 1][..k] == invalidUpdates[..k];
        assert (sorts + [correctedOrder])[..k] == sorts;
        if |correctedOrder| == |update| {
          sum := Add(sum, MiddlePage(correctedOrder));
        }
        sorts := sorts + [correctedOrder];
        k := k + 1;
      }
      assert invalidUpdates[..|invalidUpdates|] == invalidUpdates;
    }
  }

  /** `solve_pt1`: -1 when the input cannot be parsed (the error is caught), otherwise
      part 1's sum. */
  method SolvePt1(input: string) returns (r: Page)
    ensures ParseInput(input).Err? ==> r == Some(-1)
    ensures ParseInput(input).Ok? ==> r == SumValid(ParseInput(input).value.0, ParseInput(input).value.1)
  {
    if ParseInput(input).Err? {
      return Some(-1);
    }
    var solution := new Solution(input);
    r := solution.SolvePart1();
  }

  /** `solve_pt2`: -1 when the input cannot be parsed; otherwise part 1 runs first to
      collect the invalid updates, and part 2 sums over their complete sorts. */
  method SolvePt2(input: string) returns (r: Page)
    ensures ParseInput(input).Err? ==> r == Some(-1)
    ensures ParseInput(input).Ok? ==>
      exists sorts :: SortedSum(ParseInput(input).value.0, Invalid(ParseInput(input).value.0, ParseInput(input).value.1), sorts, r)
  {
    if ParseInput(input).Err? {
      return Some(-1);
    }
    var solution := new Solution(input);
    var _ := solution.SolvePart1();
    assert solution.invalidUpdates == Invalid(ParseInput(input).value.0, ParseInput(input).value.1);
    ghost var sorts;
    r, sorts := solution.SolvePart2();
    assert SortedSum(solution.rules, solution.invalidUpdates, sorts, r);
  }

  /** `sum` is part 2's answer for the kept updates `us` when `sorts` are sorts of them. */
  ghost predicate SortedSum(rules: seq<Rule>, us: seq<seq<Page>>, sorts: seq<seq<Page>>, sum: Page) {
    |sorts| == |us|
    && (forall k :: 0 <= k < |sorts| ==> SortOf(rules, us[k], sorts[k]))
    && sum == SumComplete(us, sorts)
  }
}
