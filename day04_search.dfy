/** Day 4 (solved_work_Day4, `index.ts`): the letters of "XMAS" along the eight directions
    of a word-search grid, and the X-shaped crossings of two "MAS". */
module Day04Search {
  import opened JsText
  import SetFacts

  /** `createGrid`: the trimmed input, split into lines, each line a row of one-letter
      cells. There is always at least one row. */
  function CreateGrid(input: string): (grid: seq<string>)
    ensures |grid| >= 1
  {
    Split(Trim(input), "\n")
  }

  // ---------------------------------------------------------------------------------
  // Counting cells in row-major order

  /** The cells of a possibly ragged grid — every row by its own length — that come before
      (row, col) in row-major order and satisfy `hit`. */
  ghost function CellsWhere(grid: seq<string>, hit: (int, int) -> bool, row: int, col: int): set<(int, int)> {
    set r: int, c: int | 0 <= r < |grid| && 0 <= c < |grid[r]| && (r < row || (r == row && c < col)) &&
      hit(r, c) :: (r, c)
  }

  /** Scanning one more cell adds it exactly when it satisfies `hit`. */
  lemma CellStep(grid: seq<string>, hit: (int, int) -> bool, row: int, col: int)
    requires 0 <= row < |grid| && 0 <= col < |grid[row]|
    ensures CellsWhere(grid, hit, row, col + 1) ==
      CellsWhere(grid, hit, row, col) + (if hit(row, col) then {(row, col)} else {})
    ensures |CellsWhere(grid, hit, row, col + 1)| == |CellsWhere(grid, hit, row, col)| + (if hit(row, col) then 1 else 0)
  {
    var before, after := CellsWhere(grid, hit, row, col), CellsWhere(grid, hit, row, col + 1);
    assert (row, col) !in before;
    assert after == before + (if hit(row, col) then {(row, col)} else {});
  }

  /** The end of a row is the start of the next. */
  lemma RowStep(grid: seq<string>, hit: (int, int) -> bool, row: int)
    requires 0 <= row < |grid|
    ensures CellsWhere(grid, hit, row + 1, 0) == CellsWhere(grid, hit, row, |grid[row]|)
  {
  }

  // ---------------------------------------------------------------------------------
  // Part 1

  /** The eight directions as (row, column) steps, in the order the solver tries them. */
  const Directions: seq<(int, int)> :=
    [(-1, -1), (-1, 0), (-1, 1), (0, -1), (0, 1), (1, -1), (1, 0), (1, 1)]

  const Pattern: string := "XMAS"

  /** Cell (r, c) lies within the grid's rows and the first row's width, and holds `ch`; a
      column past the end of a shorter row reads `undefined`, which is no letter. */
  predicate Reads(grid: seq<string>, r: int, c: int, ch: char) {
    0 <= r < |grid| && 0 <= c < |grid[0]| && c < |grid[r]| && grid[r][c] == ch
  }

  /** The four cells from (row, col) along `d` spell "XMAS". */
  predicate Spells(grid: seq<string>, row: int, col: int, d: (int, int)) {
    forall i :: 0 <= i < |Pattern| ==> Reads(grid, row + d.0 * i, col + d.1 * i, Pattern[i])
  }

  /** `checkXMAS`: the letters from (row, col) along `d` are checked one by one, failing at
      the first cell out of bounds or holding the wrong letter. */
  method CheckXmas(grid: seq<string>, row: int, col: int, d: (int, int)) returns (found: bool)
    ensures found == Spells(grid, row, col, d)
  {
    for i := 0 to |Pattern|
      invariant forall j :: 0 <= j < i ==> Reads(grid, row + d.0 * j, col + d.1 * j, Pattern[j])
    {
      var newRow, newCol := row + d.0 * i, col + d.1 * i;
      if newRow < 0 || newRow >= |grid| || newCol < 0 || newCol >= |grid[0]| {
        assert !Reads(grid, row + d.0 * i, col + d.1 * i, Pattern[i]);
        return false;
      }
      if !(newCol < |grid[newRow]| && grid[newRow][newCol] == Pattern[i]) {
        assert !Reads(grid, row + d.0 * i, col + d.1 * i, Pattern[i]);
        return false;
      }
    }
    return true;
  }

  /** An 'X' from which "XMAS" reads in at least one direction. */
  ghost predicate StartsXmas(grid: seq<string>, r: int, c: int) {
    0 <= r < |grid| && 0 <= c < |grid[r]| && grid[r][c] == 'X' &&
    exists k :: 0 <= k < |Directions| && Spells(grid, r, c, Directions[k])
  }

  /** The 'X' cells the part 1 scan counts. */
  ghost function XmasStarts(grid: seq<string>): set<(int, int)> {
    CellsWhere(grid, (r, c) => StartsXmas(grid, r, c), |grid|, 0)
  }

  /** None of the first k directions spells "XMAS" from (row, col). */
  predicate MissesBefore(grid: seq<string>, row: int, col: int, k: nat)
    requires k <= |Directions|
  {
    k == 0 || (MissesBefore(grid, row, col, k - 1) && !Spells(grid, row, col, Directions[k - 1]))
  }

  /** Missing every direction is not starting "XMAS". */
  lemma {:induction false} MissesAll(grid: seq<string>, row: int, col: int, k: nat)
    requires k <= |Directions| && MissesBefore(grid, row, col, k)
    ensures forall j :: 0 <= j < k ==> !Spells(grid, row, col, Directions[j])
  {
    if k > 0 {
      MissesAll(grid, row, col, k - 1);
    }
  }

  /** The direction loop at one 'X' cell: whether it counts is whether the cell starts
      "XMAS" in some direction. */
  lemma CellVerdict(grid: seq<string>, row: int, col: int, k: nat, found: bool)
    requires 0 <= row < |grid| && 0 <= col < |grid[row]| && grid[row][col] == 'X'
    requires k <= |Directions| && MissesBefore(grid, row, col, k)
    requires found ==> k < |Directions| && Spells(grid, row, col, Directions[k])
    requires !found ==> k == |Directions|
    ensures found == StartsXmas(grid, row, col)
  {
    MissesAll(grid, row, col, k);
  }

  /** `solve_pt1`: the scan stops at the first direction that spells "XMAS", so it counts the
      'X' cells with at least one match, not the matches. */
  method SolvePt1(input: string) returns (count: nat)
    ensures count == |XmasStarts(CreateGrid(input))|
  {
    count := CountXmasStarts(CreateGrid(input));
  }

  /** The scan of `solve_pt1` over the grid. */
  method CountXmasStarts(grid: seq<string>) returns (count: nat)
    ensures count == |XmasStarts(grid)|
  {
    ghost var hit := (r, c) => StartsXmas(grid, r, c);
    count := 0;
    for row := 0 to |grid|
      invariant count == |CellsWhere(grid, hit, row, 0)|
    {
      for col := 0 to |grid[row]|
        invariant count == |CellsWhere(grid, hit, row, col)|
      {
        CellStep(grid, hit, row, col);
        if grid[row][col] == 'X' {
          var found, k := false, 0;
          while k < |Directions|
            invariant k <= |Directions| && MissesBefore(grid, row, col, k)
          {
            found := CheckXmas(grid, row, col, Directions[k]);
            if found {
              break;
            }
            k := k + 1;
          }
          CellVerdict(grid, row, col, k, found);
          if found {
            count := count + 1;
          }
        }
      }
      RowStep(grid, hit, row);
    }
  }

  /** Part 1 counts no more than the grid's 'X' cells. */
  lemma XmasStartsBound(grid: seq<string>)
    ensures XmasStarts(grid) <= CellsWhere(grid, (r, c) => 0 <= r < |grid| && 0 <= c < |grid[r]| && grid[r][c] == 'X', |grid|, 0)
    ensures |XmasStarts(grid)| <= |CellsWhere(grid, (r, c) => 0 <= r < |grid| && 0 <= c < |grid[r]| && grid[r][c] == 'X', |grid|, 0)|
  {
    SetFacts.Smaller(XmasStarts(grid),
      CellsWhere(grid, (r, c) => 0 <= r < |grid| && 0 <= c < |grid[r]| && grid[r][c] == 'X', |grid|, 0));
  }

  // ---------------------------------------------------------------------------------
  // Part 2

  /** The diagonals through a cell: up-left and up-right. */
  const Diagonals: seq<(int, int)> := [(-1, -1), (-1, 1)]

  /** What JavaScript appends to a string for a missing cell. */
  const Undefined: string := "undefined"

  /** What one cell adds to a sequence: nothing outside the grid's rows or the first row's
      width, its letter inside, and the text "undefined" past the end of a shorter row. */
  function Cell(grid: seq<string>, r: int, c: int): string {
    if 0 <= r < |grid| && 0 <= c < |grid[0]| then
      if c < |grid[r]| then [grid[r][c]] else Undefined
    else ""
  }

  /** The text of the first n cells along `d` across (row, col), from step -1. */
  function Letters(grid: seq<string>, row: int, col: int, d: (int, int), n: nat): string
    requires n <= 3
  {
    if n == 0 then ""
    else if n == 1 then Cell(grid, row - d.0, col - d.1)
    else if n == 2 then Cell(grid, row - d.0, col - d.1) + Cell(grid, row, col)
    else Cell(grid, row - d.0, col - d.1) + Cell(grid, row, col) + Cell(grid, row + d.0, col + d.1)
  }

  /** Step i of the letter loop appends the cell i steps along `d`. */
  lemma LetterTurn(grid: seq<string>, row: int, col: int, d: (int, int), i: int)
    requires -1 <= i <= 1
    ensures Letters(grid, row, col, d, i + 2) ==
      Letters(grid, row, col, d, i + 1) + Cell(grid, row + d.0 * i, col + d.1 * i)
  {
    var piece := Cell(grid, row + d.0 * i, col + d.1 * i);
    if i == -1 {
      assert row + d.0 * i == row - d.0 && col + d.1 * i == col - d.1;
      assert "" + piece == piece;
    } else if i == 0 {
      assert row + d.0 * i == row && col + d.1 * i == col;
    } else {
      assert row + d.0 * i == row + d.0 && col + d.1 * i == col + d.1;
    }
  }

  /** `getThreeLetterSequence`: the three cells across (row, col) along `d`, from step -1 to
      step 1, in that order. */
  method ThreeLetters(grid: seq<string>, row: int, col: int, d: (int, int)) returns (sequence: string)
    ensures sequence == Cell(grid, row - d.0, col - d.1) + Cell(grid, row, col) + Cell(grid, row + d.0, col + d.1)
  {
    sequence := "";
    for i := -1 to 2
      invariant sequence == Letters(grid, row, col, d, i + 1)
    {
      var newRow, newCol := row + d.0 * i, col + d.1 * i;
      LetterTurn(grid, row, col, d, i);
      if newRow >= 0 && newRow < |grid| && newCol >= 0 && newCol < |grid[0]| {
        var letter := if newCol < |grid[newRow]| then [grid[newRow][newCol]] else Undefined;
        assert letter == Cell(grid, newRow, newCol);
        sequence := sequence + letter;
      } else {
        assert sequence + Cell(grid, newRow, newCol) == sequence;
      }
    }
  }

  /** At the grid's edge the sequence drops the cells outside it, so it is shorter than
      three letters when the cells that are inside are letters. */
  lemma EdgeShort(grid: seq<string>, row: int, col: int, d: (int, int))
    requires 0 <= row < |grid| && 0 <= col < |grid[0]| && col < |grid[row]|
    requires !(0 <= row - d.0 < |grid| && 0 <= col - d.1 < |grid[0]|)
    requires 0 <= row + d.0 < |grid| && 0 <= col + d.1 < |grid[0]| ==> col + d.1 < |grid[row + d.0]|
    ensures |Cell(grid, row - d.0, col - d.1) + Cell(grid, row, col) + Cell(grid, row + d.0, col + d.1)| < 3
  {
  }

  predicate IsValidSequence(s: string) {
    s == "MAS" || s == "SAM"
  }

  /** `checkXShapedMAS`: both diagonals through (row, col) read "MAS" one way or the other. */
  predicate XShaped(grid: seq<string>, row: int, col: int) {
    IsValidSequence(Cell(grid, row + 1, col + 1) + Cell(grid, row, col) + Cell(grid, row - 1, col - 1)) &&
    IsValidSequence(Cell(grid, row + 1, col - 1) + Cell(grid, row, col) + Cell(grid, row - 1, col + 1))
  }

  /** The two letters of a diagonal's ends are one 'M' and one 'S'. */
  predicate MandS(a: char, b: char) {
    (a == 'M' && b == 'S') || (a == 'S' && b == 'M')
  }

  /** A one-letter cell text read back as that letter. */
  lemma CellLetter(grid: seq<string>, r: int, c: int)
    ensures |Cell(grid, r, c)| == 1 <==> 0 <= r < |grid| && 0 <= c < |grid[0]| && c < |grid[r]|
    ensures |Cell(grid, r, c)| == 1 ==> Cell(grid, r, c)[0] == grid[r][c]
  {
  }

  /** Three cell texts make a three-letter word exactly when each is one letter. */
  lemma ThreeCells(a: string, b: string, c: string, w: string)
    requires |a| <= 1 || |a| == 9
    requires |b| <= 1 || |b| == 9
    requires |c| <= 1 || |c| == 9
    requires |w| == 3
    ensures a + b + c == w <==> |a| == 1 && |b| == 1 && |c| == 1 && a[0] == w[0] && b[0] == w[1] && c[0] == w[2]
  {
    if a + b + c == w {
      assert |a| + |b| + |c| == 3;
      assert a == w[..1] && b == w[1..2] && c == w[2..];
    }
    if |a| == 1 && |b| == 1 && |c| == 1 && a[0] == w[0] && b[0] == w[1] && c[0] == w[2] {
      assert a + b + c == [w[0], w[1], w[2]] == w;
    }
  }

  /** An X of "MAS" is an 'A' off the border whose two diagonals each join an 'M' and an
      'S'; in particular it never lies on the grid's edge. */
  lemma XShapedIff(grid: seq<string>, row: int, col: int)
    ensures XShaped(grid, row, col) <==> (
      1 <= row < |grid| - 1 && 1 <= col < |grid[0]| - 1 &&
      col < |grid[row]| && col + 1 < |grid[row - 1]| && col + 1 < |grid[row + 1]| &&
      grid[row][col] == 'A' &&
      MandS(grid[row - 1][col - 1], grid[row + 1][col + 1]) &&
      MandS(grid[row - 1][col + 1], grid[row + 1][col - 1]))
  {
    var centre := Cell(grid, row, col);
    var a, b := Cell(grid, row + 1, col + 1), Cell(grid, row - 1, col - 1);
    var e, f := Cell(grid, row + 1, col - 1), Cell(grid, row - 1, col + 1);
    ThreeCells(a, centre, b, "MAS");
    ThreeCells(a, centre, b, "SAM");
    ThreeCells(e, centre, f, "MAS");
    ThreeCells(e, centre, f, "SAM");
    CellLetter(grid, row, col);
    CellLetter(grid, row + 1, col + 1);
    CellLetter(grid, row - 1, col - 1);
    CellLetter(grid, row + 1, col - 1);
    CellLetter(grid, row - 1, col + 1);
  }

  /** An 'A' at the centre of an X of "MAS". */
  predicate CrossAt(grid: seq<string>, r: int, c: int) {
    0 <= r < |grid| && 0 <= c < |grid[r]| && grid[r][c] == 'A' && XShaped(grid, r, c)
  }

  /** The cells the part 2 scan counts. */
  ghost function Crosses(grid: seq<string>): set<(int, int)> {
    CellsWhere(grid, (r, c) => CrossAt(grid, r, c), |grid|, 0)
  }

  /** `checkXShapedMAS` as the solver calls it, reading both diagonals. */
  method CheckXShapedMas(grid: seq<string>, row: int, col: int) returns (ok: bool)
    ensures ok == XShaped(grid, row, col)
  {
    var diagonal1 := ThreeLetters(grid, row, col, Diagonals[0]);
    var diagonal2 := ThreeLetters(grid, row, col, Diagonals[1]);
    ok := IsValidSequence(diagonal1) && IsValidSequence(diagonal2);
  }

  /** `solve_pt2`: the number of 'A' cells at the centre of an X of "MAS". */
  method SolvePt2(input: string) returns (count: nat)
    ensures count == |Crosses(CreateGrid(input))|
  {
    count := CountCrosses(CreateGrid(input));
  }

  /** The scan of `solve_pt2` over the grid. */
  method CountCrosses(grid: seq<string>) returns (count: nat)
    ensures count == |Crosses(grid)|
  {
    ghost var hit := (r, c) => CrossAt(grid, r, c);
    count := 0;
    for row := 0 to |grid|
      invariant count == |CellsWhere(grid, hit, row, 0)|
    {
      for col := 0 to |grid[row]|
        invariant count == |CellsWhere(grid, hit, row, col)|
      {
        CellStep(grid, hit, row, col);
        if grid[row][col] == 'A' {
          var ok := CheckXShapedMas(grid, row, col);
          if ok {
            count := count + 1;
          }
        }
      }
      RowStep(grid, hit, row);
    }
  }
}
