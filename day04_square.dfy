/** Day 4 (solved_work_Day4, `index_pt1_success.ts`): the input read as a square grid once
    its whitespace is removed, and every (X cell, direction) pair that spells "XMAS". */
module Day04Square {
  import opened Wrappers
  import opened JsText

  // ---------------------------------------------------------------------------------
  // createGrid

  /** `input.replace(/\s/g, '')`: the characters of `s` that are not whitespace, in order. */
  function Strip(s: string): (r: string)
    ensures |r| <= |s|
    ensures forall i :: 0 <= i < |r| ==> !IsJsWhitespace(r[i])
  {
    if s == [] then []
    else if IsJsWhitespace(s[0]) then Strip(s[1..])
    else [s[0]] + Strip(s[1..])
  }

  /** Text without whitespace is left as it is. */
  lemma {:induction false} StripKeeps(s: string)
    requires forall i :: 0 <= i < |s| ==> !IsJsWhitespace(s[i])
    ensures Strip(s) == s
  {
    if s != [] {
      StripKeeps(s[1..]);
    }
  }

  /** Text that is not all whitespace keeps at least one character. */
  lemma {:induction false} StripNonEmpty(s: string, i: nat)
    requires i < |s| && !IsJsWhitespace(s[i])
    ensures Strip(s) != []
  {
    if i > 0 {
      StripNonEmpty(s[1..], i - 1);
    }
  }

  /** A line that is not blank keeps a character once its whitespace is removed. */
  lemma NonBlankStrips(line: string)
    requires Trim(line) != ""
    ensures Strip(line) != []
  {
    var t := TrimStart(line);
    assert t != [];
    StripNonEmpty(line, |line| - |t|);
  }

  function Sq(n: nat): nat { n * n }

  /** Squares grow with their side. */
  lemma SqGrows(a: nat, b: nat)
    requires a < b
    ensures Sq(a) < Sq(b)
  {
    assert a * a <= a * b < b * b;
  }

  /** The search for an exact square root, from `k` upwards. */
  function RootFrom(n: nat, k: nat): (r: Option<nat>)
    requires Sq(k) <= n || k == 0
    ensures r.Some? ==> Sq(r.value) == n
    ensures r.None? ==> forall j: nat :: k <= j ==> Sq(j) != n
    decreases n - k
  {
    if Sq(k) == n then Some(k)
    else if Sq(k + 1) > n then
      assert forall j: nat :: k + 1 < j ==> Sq(k + 1) < Sq(j) by {
        forall j: nat | k + 1 < j ensures Sq(k + 1) < Sq(j) { SqGrows(k + 1, j); }
      }
      None
    else
      assert k <= k * k;
      RootFrom(n, k + 1)
  }

  /** `Math.sqrt(n)` when it is a whole number, read exactly: the side of a square of area n,
      or none when n is not a perfect square. */
  function Root(n: nat): (r: Option<nat>)
    ensures r.Some? <==> exists j: nat :: Sq(j) == n
    ensures r.Some? ==> Sq(r.value) == n
  {
    RootFrom(n, 0)
  }

  /** Row i of a grid of the given side cut out of `s`. */
  lemma RowWithin(i: nat, side: nat)
    requires i < side
    ensures (i + 1) * side <= Sq(side)
    ensures i * side + side == (i + 1) * side
  {
    assert (i + 1) * side <= side * side;
  }

  /** The rows of side `side` that `createGrid` cuts from the stripped text. */
  function Rows(s: string, side: nat): (rows: seq<string>)
    requires Sq(side) == |s|
    ensures |rows| == side
    ensures forall i :: 0 <= i < side ==> |rows[i]| == side
  {
    var rows := seq(side, i requires 0 <= i < side => RowWithin(i, side); s[i * side..(i + 1) * side]);
    assert forall i :: 0 <= i < side ==> |rows[i]| == side by {
      forall i | 0 <= i < side ensures |rows[i]| == side {
        RowWithin(i, side);
      }
    }
    rows
  }

  /** What `createGrid` returns for `input`: no grid when the stripped length is not a
      perfect square; a thrown error when it is empty (printing reads the missing first
      row); otherwise the square of rows. */
  function SquareGrid(input: string): (r: Result<seq<string>>)
    ensures r.Ok? && r.value == [] <==> !exists j: nat :: Sq(j) == |Strip(input)|
    ensures r.Err? <==> Strip(input) == []
    ensures r.Ok? && r.value != [] ==> (Sq(|r.value|) == |Strip(input)| &&
      forall i :: 0 <= i < |r.value| ==> |r.value[i]| == |r.value|)
  {
    var s := Strip(input);
    match Root(|s|)
    case None => Ok([])
    case Some(side) => if side == 0 then Err("Cannot read properties of undefined (reading 'length')") else Ok(Rows(s, side))
  }

  /** The rows concatenate back to the stripped text. */
  lemma {:induction false} RowsJoin(s: string, side: nat, k: nat)
    requires Sq(side) == |s| && k <= side
    ensures k * side <= |s|
    ensures Join(Rows(s, side)[..k], "") == s[..k * side]
  {
    var rows := Rows(s, side);
    if k == 0 {
      assert rows[..0] == [];
    } else {
      RowsJoin(s, side, k - 1);
      RowWithin(k - 1, side);
      assert rows[..k] == rows[..k - 1] + [rows[k - 1]];
      JoinSnoc(rows[..k - 1], rows[k - 1]);
      assert s[..k * side] == s[..(k - 1) * side] + s[(k - 1) * side..k * side];
    }
  }

  /** Joining one more part with no separator appends it. */
  lemma {:induction false} JoinSnoc(parts: seq<string>, last: string)
    ensures Join(parts + [last], "") == Join(parts, "") + last
  {
    if parts == [] {
      assert [] + [last] == [last];
    } else {
      assert (parts + [last])[1..] == parts[1..] + [last];
      JoinSnoc(parts[1..], last);
    }
  }

  /** A grid `createGrid` returns reads back, row after row, as the input without its
      whitespace. */
  lemma SquareGridJoin(input: string)
    requires SquareGrid(input).Ok? && SquareGrid(input).value != []
    ensures Join(SquareGrid(input).value, "") == Strip(input)
  {
    var s := Strip(input);
    var side := Root(|s|).value;
    RowsJoin(s, side, side);
    assert Rows(s, side)[..side] == Rows(s, side);
  }

  /** `createGrid`: row i is filled with the slice [i·size, (i+1)·size) of the stripped
      text, for each i below the side. */
  method CreateGrid(input: string) returns (r: Result<seq<string>>)
    ensures r == SquareGrid(input)
  {
    var s := Strip(input);
    var root := Root(|s|);
    if root.None? {
      return Ok([]);
    }
    var size := root.value;
    var grid: seq<string> := [];
    for i := 0 to size
      invariant grid == Rows(s, size)[..i]
    {
      RowWithin(i, size);
      grid := grid + [s[i * size..(i + 1) * size]];
    }
    assert grid == Rows(s, size);
    if size == 0 {
      return Err("Cannot read properties of undefined (reading 'length')");
    }
    return Ok(grid);
  }

  // ---------------------------------------------------------------------------------
  // checkXMAS and the count

  /** The eight directions as (row, column) steps, in the order the solver tries them. */
  const Directions: seq<(int, int)> :=
    [(0, 1), (1, 0), (0, -1), (-1, 0), (1, 1), (-1, -1), (-1, 1), (1, -1)]

  /** The directions are eight different steps of at most one row and one column. */
  lemma DirectionsDistinct()
    ensures |Directions| == 8
    ensures forall i, j :: 0 <= i < j < |Directions| ==> Directions[i] != Directions[j]
    ensures forall i :: 0 <= i < |Directions| ==>
      Directions[i] != (0, 0) && -1 <= Directions[i].0 <= 1 && -1 <= Directions[i].1 <= 1
  {
  }

  const Pattern: string := "XMAS"

  /** Cell (r, c) lies in the square of side |grid| and holds `ch`. */
  predicate Reads(grid: seq<string>, r: int, c: int, ch: char) {
    0 <= r < |grid| && 0 <= c < |grid| && c < |grid[r]| && grid[r][c] == ch
  }

  /** The four cells from (row, col) along `d` spell "XMAS". */
  predicate Spells(grid: seq<string>, row: int, col: int, d: (int, int)) {
    forall i :: 0 <= i < |Pattern| ==> Reads(grid, row + d.0 * i, col + d.1 * i, Pattern[i])
  }

  /** `checkXMAS`: the letters from (row, col) along `d`, checked one by one. */
  method CheckXmas(grid: seq<string>, row: int, col: int, d: (int, int)) returns (found: bool)
    ensures found == Spells(grid, row, col, d)
  {
    var size := |grid|;
    for i := 0 to |Pattern|
      invariant forall j :: 0 <= j < i ==> Reads(grid, row + d.0 * j, col + d.1 * j, Pattern[j])
    {
      var newRow, newCol := row + d.0 * i, col + d.1 * i;
      if newRow < 0 || newRow >= size || newCol < 0 || newCol >= size {
        assert !Reads(grid, row + d.0 * i, col + d.1 * i, Pattern[i]);
        return false;
      }
      if !(newCol < |grid[newRow]| && grid[newRow][newCol] == Pattern[i]) {
        assert !Reads(grid, row + d.0 * i, col + d.1 * i, Pattern[i]);
        return false;
      }
    }
    return true;
  }

  /** Of the first k directions, how many spell "XMAS" from (row, col); never more than k. */
  function Hits(grid: seq<string>, row: int, col: int, k: nat): (n: nat)
    requires k <= |Directions|
    ensures n <= k
  {
    if k == 0 then 0
    else Hits(grid, row, col, k - 1) + (if Spells(grid, row, col, Directions[k - 1]) then 1 else 0)
  }

  /** What a cell adds to the count: the directions spelling "XMAS" from an 'X', else 0. */
  function CellCount(grid: seq<string>, r: nat, c: nat): (n: nat)
    requires r < |grid| && c < |grid[r]|
    ensures n <= |Directions|
    ensures grid[r][c] != 'X' ==> n == 0
  {
    if grid[r][c] == 'X' then Hits(grid, r, c, |Directions|) else 0
  }

  /** A square grid: every row as long as the grid is high. */
  predicate IsSquare(grid: seq<string>) {
    forall r :: 0 <= r < |grid| ==> |grid[r]| == |grid|
  }

  /** The cells of a square grid scanned before (row, col) in row-major order, and what
      they add up to. */
  function CountBefore(grid: seq<string>, row: nat, col: nat): nat
    requires IsSquare(grid) && row <= |grid| && col <= |grid| && (row == |grid| ==> col == 0)
    decreases row, col
  {
    if col == 0 then
      (if row == 0 then 0 else CountBefore(grid, row - 1, |grid|))
    else CountBefore(grid, row, col - 1) + CellCount(grid, row, col - 1)
  }

  /** How many 'X' cells come before (row, col). */
  function XsBefore(grid: seq<string>, row: nat, col: nat): nat
    requires IsSquare(grid) && row <= |grid| && col <= |grid| && (row == |grid| ==> col == 0)
    decreases row, col
  {
    if col == 0 then
      (if row == 0 then 0 else XsBefore(grid, row - 1, |grid|))
    else XsBefore(grid, row, col - 1) + (if grid[row][col - 1] == 'X' then 1 else 0)
  }

  /** Every match starts at an 'X', and an 'X' starts at most eight. */
  lemma {:induction false} CountBound(grid: seq<string>, row: nat, col: nat)
    requires IsSquare(grid) && row <= |grid| && col <= |grid| && (row == |grid| ==> col == 0)
    ensures CountBefore(grid, row, col) <= |Directions| * XsBefore(grid, row, col)
    decreases row, col
  {
    if col == 0 {
      if row > 0 {
        CountBound(grid, row - 1, |grid|);
      }
    } else {
      CountBound(grid, row, col - 1);
    }
  }

  /** The scan of one square grid: every (X cell, direction) pair spelling "XMAS". */
  method CountGrid(grid: seq<string>) returns (count: nat)
    requires IsSquare(grid)
    ensures count == CountBefore(grid, |grid|, 0)
  {
    var size := |grid|;
    count := 0;
    for row := 0 to size
      invariant count == CountBefore(grid, row, 0)
    {
      for col := 0 to size
        invariant count == CountBefore(grid, row, col)
      {
        if grid[row][col] == 'X' {
          for k := 0 to |Directions|
            invariant count == CountBefore(grid, row, col) + Hits(grid, row, col, k)
          {
            var found := CheckXmas(grid, row, col, Directions[k]);
            if found {
              count := count + 1;
            }
          }
        }
      }
      assert CountBefore(grid, row + 1, 0) == CountBefore(grid, row, size);
    }
  }

  // ---------------------------------------------------------------------------------
  // solve_pt1

  /** What one line of the input adds: nothing when it is blank or is no perfect square,
      else the matches in its grid. */
  function LineCount(line: string): nat {
    if Trim(line) == "" then 0
    else
      match SquareGrid(line)
      case Ok(grid) => if grid == [] then 0 else CountBefore(grid, |grid|, 0)
      case Err(_) => 0
  }

  /** A line that is not blank never makes `createGrid` throw. */
  lemma LineNeverThrows(line: string)
    requires Trim(line) != ""
    ensures SquareGrid(line).Ok?
  {
    NonBlankStrips(line);
  }

  function Total(lines: seq<string>): nat {
    if lines == [] then 0 else Total(lines[..|lines| - 1]) + LineCount(lines[|lines| - 1])
  }

  /** `solve_pt1`: the input is split on the two characters backslash and 'n' (not on a
      newline), and the counts of the lines' grids are added up. */
  method SolvePt1(data: string) returns (count: nat)
    ensures count == Total(Split(data, "\\n"))
  {
    var lines := Split(data, "\\n");
    count := 0;
    for i := 0 to |lines|
      invariant count == Total(lines[..i])
    {
      assert lines[..i + 1][..i] == lines[..i];
      var line := lines[i];
      if Trim(line) == "" {
        continue;
      }
      LineNeverThrows(line);
      var r := CreateGrid(line);
      var grid := r.value;
      if |grid| == 0 {
        continue;
      }
      var n := CountGrid(grid);
      count := count + n;
    }
    assert lines[..|lines|] == lines;
  }
}
