/** Day 9 (node_runner/src/solved/index.day9.ts): a disk map of digits alternates file
    and free-space lengths; it is expanded into one cell per block, compacted (part 1 one
    cell at a time, part 2 whole files) and scored by a checksum. */
module Day09Disk {
  import opened Wrappers
  import opened JsText

  /** One expanded cell: the id of the file stored there, or `None` for free space. */
  type Cell = Option<nat>

  /** A `DiskBlock` of the parsed map. */
  datatype Block = Block(fileId: Option<nat>, size: nat)

  /** `Number(c)` for one character, as a number of cells: a digit gives its value; a
      whitespace character gives 0; anything else gives `NaN`, for which the expansion
      loop `i < size` never runs, so it also stands for 0 cells. */
  function SizeOf(c: char): nat {
    if IsDigit(c) then DigitValue(c) else 0
  }

  /** `parseDiskMap`: entry i is a file with id i/2 when i is even, free space when i is
      odd, and its size is the character's number. */
  method ParseDiskMap(input: string) returns (blocks: seq<Block>)
    ensures blocks == Parsed(input)
    ensures |blocks| == |input|
    ensures forall i :: 0 <= i < |input| ==>
      blocks[i] == Block(if i % 2 == 0 then Some(i / 2) else None, SizeOf(input[i]))
  {
    blocks := [];
    var fileId := 0;
    var i := 0;
    while i < |input|
      invariant 0 <= i <= |input| && |blocks| == i && fileId == (i + 1) / 2
      invariant forall k :: 0 <= k < i ==>
        blocks[k] == Block(if k % 2 == 0 then Some(k / 2) else None, SizeOf(input[k]))
    {
      var id: Option<nat> := None;
      if i % 2 == 0 {
        id := Some(fileId);
        fileId := fileId + 1;
      }
      blocks := blocks + [Block(id, SizeOf(input[i]))];
      i := i + 1;
    }
  }

  /** The cells one block contributes: `size` copies of its file id. */
  function Cells(b: Block): seq<Cell> {
    seq(b.size, _ => b.fileId)
  }

  /** The cells of a block list, in order. */
  function Expand(blocks: seq<Block>): seq<Cell> {
    if blocks == [] then [] else Expand(blocks[..|blocks| - 1]) + Cells(blocks[|blocks| - 1])
  }

  function TotalSize(blocks: seq<Block>): nat {
    if blocks == [] then 0 else TotalSize(blocks[..|blocks| - 1]) + blocks[|blocks| - 1].size
  }

  /** Expanding a concatenation expands each part. */
  lemma {:induction false} ExpandAppend(a: seq<Block>, b: seq<Block>)
    ensures Expand(a + b) == Expand(a) + Expand(b)
    decreases |b|
  {
    if b == [] {
      assert a + b == a;
    } else {
      var b' := b[..|b| - 1];
      assert (a + b)[..|a + b| - 1] == a + b';
      assert (a + b)[|a + b| - 1] == b[|b| - 1];
      ExpandAppend(a, b');
    }
  }

  /** The expansion has one cell per unit of size, and block k's cells sit right after
      those of the blocks before it. */
  lemma {:induction false} ExpandShape(blocks: seq<Block>, k: nat)
    requires k < |blocks|
    ensures |Expand(blocks)| == TotalSize(blocks)
    ensures Expand(blocks) == Expand(blocks[..k]) + Cells(blocks[k]) + Expand(blocks[k + 1..])
  {
    ExpandLength(blocks);
    assert blocks == blocks[..k] + [blocks[k]] + blocks[k + 1..];
    ExpandAppend(blocks[..k] + [blocks[k]], blocks[k + 1..]);
    ExpandAppend(blocks[..k], [blocks[k]]);
    assert [blocks[k]][..0] == [];
  }

  lemma {:induction false} ExpandLength(blocks: seq<Block>)
    ensures |Expand(blocks)| == TotalSize(blocks)
  {
    if blocks != [] {
      ExpandLength(blocks[..|blocks| - 1]);
    }
  }

  /** `expandDiskMap`: the nested loop pushes `size` cells for every block. */
  method ExpandDiskMap(blocks: seq<Block>) returns (expanded: seq<Cell>)
    ensures expanded == Expand(blocks)
  {
    expanded := [];
    var k := 0;
    while k < |blocks|
      invariant 0 <= k <= |blocks| && expanded == Expand(blocks[..k])
    {
      var i := 0;
      while i < blocks[k].size
        invariant 0 <= i <= blocks[k].size
        invariant expanded == Expand(blocks[..k]) + seq(i, _ => blocks[k].fileId)
      {
        expanded := expanded + [blocks[k].fileId];
        i := i + 1;
      }
      assert blocks[..k + 1][..k] == blocks[..k];
      k := k + 1;
    }
    assert blocks[..k] == blocks;
  }

  /** The index of the last file cell, or -1 when every cell is free. */
  function LastFile(c: seq<Cell>): (r: int)
    ensures -1 <= r < |c|
    ensures r >= 0 ==> c[r].Some?
    ensures forall i :: r < i < |c| ==> c[i].None?
  {
    if c == [] then -1
    else if c[|c| - 1].Some? then |c| - 1
    else LastFile(c[..|c| - 1])
  }

  /** `findRightmostFile`: the downward loop. */
  method FindRightmostFile(disk: seq<Cell>) returns (r: int)
    ensures r == LastFile(disk)
  {
    var i := |disk| - 1;
    while i >= 0
      invariant -1 <= i < |disk| && LastFile(disk) == LastFile(disk[..i + 1])
    {
      if disk[i].Some? {
        return i;
      }
      assert disk[..i + 1][..i] == disk[..i];
      i := i - 1;
    }
    return -1;
  }

  /** Moving the last file cell `r` into a free cell `l` before it moves the last file
      cell left. */
  lemma LastFileMoved(c: seq<Cell>, l: int, r: int)
    requires 0 <= l < r && r == LastFile(c) && c[l].None?
    ensures LastFile(c[l := c[r]][r := c[l]]) < r
  {
    var d := c[l := c[r]][r := c[l]];
    forall i | r <= i < |d| ensures d[i].None? {
      assert i == r || d[i] == c[i];
    }
    LastFileBelow(d, r);
  }

  /** When every cell from `n` on is free, the last file cell lies before `n`. */
  lemma {:induction false} LastFileBelow(c: seq<Cell>, n: nat)
    requires n <= |c| && forall i :: n <= i < |c| ==> c[i].None?
    ensures LastFile(c) < n
  {
    if |c| > n {
      assert c[|c| - 1].None?;
      LastFileBelow(c[..|c| - 1], n);
    }
  }

  /** `findLeftmostSpace`: the first free cell before `beforeIndex`, or -1. */
  method FindLeftmostSpace(disk: seq<Cell>, beforeIndex: int) returns (r: int)
    requires beforeIndex <= |disk|
    ensures r == -1 ==> forall i :: 0 <= i < beforeIndex ==> disk[i].Some?
    ensures r != -1 ==> 0 <= r < beforeIndex && disk[r].None? && forall i :: 0 <= i < r ==> disk[i].Some?
  {
    var i := 0;
    while i < beforeIndex
      invariant 0 <= i <= |disk| && (beforeIndex >= 0 ==> i <= beforeIndex)
      invariant forall k :: 0 <= k < i ==> disk[k].Some?
    {
      if disk[i].None? {
        return i;
      }
      i := i + 1;
    }
    return -1;
  }

  /** No free cell comes before a file cell. */
  predicate Compacted(c: seq<Cell>) {
    forall i, j :: 0 <= i < j < |c| && c[i].None? ==> c[j].None?
  }

  /** `compactDisk`: on a copy of the disk, repeatedly move the last file cell into the
      first free cell before it. The result has the same length and the same multiset of
      cells as the input, which is not changed, and no free cell precedes a file cell. */
  method CompactDisk(disk: seq<Cell>) returns (result: seq<Cell>)
    ensures |result| == |disk| && multiset(result) == multiset(disk)
    ensures Compacted(result)
  {
    var work := new Cell[|disk|](i requires 0 <= i < |disk| => disk[i]);
    assert work[..] == disk;
    while true
      invariant work.Length == |disk| && multiset(work[..]) == multiset(disk)
      decreases LastFile(work[..]) + 1
    {
      var r := FindRightmostFile(work[..]);
      if r == -1 {
        break;
      }
      var l := FindLeftmostSpace(work[..], r);
      if l == -1 {
        assert Compacted(work[..]);
        break;
      }
      ghost var before := work[..];
      work[l] := work[r];
      work[r] := None;
      assert work[..] == before[l := before[r]][r := before[l]];
      SwapCells(before, l, r, before[r], before[l]);
      LastFileMoved(before, l, r);
    }
    result := work[..];
  }

  /** The index of the first free cell of a run of `size` free cells ending at `end`
      (exclusive), when there is one. */
  predicate FreeRun(disk: seq<Cell>, start: int, size: int) {
    0 <= start && start + size <= |disk| && forall i :: start <= i < start + size ==> disk[i].None?
  }

  /** The number of free cells directly before index `i`, stopped at index 0. */
  function FreeBefore(disk: seq<Cell>, i: nat): (n: nat)
    requires i <= |disk|
    ensures n <= i && FreeRun(disk, i - n, n) && (n < i ==> disk[i - n - 1].Some?)
  {
    if i == 0 || disk[i - 1].Some? then 0 else FreeBefore(disk, i - 1) + 1
  }

  /** `findLeftmostFitSpace`: the start of the leftmost run of `size` free cells inside
      `[0, beforeIndex)`, or -1; a size of 0 is never matched. */
  method FindLeftmostFitSpace(disk: seq<Cell>, beforeIndex: int, size: int) returns (r: int)
    requires beforeIndex <= |disk|
    ensures r != -1 ==> 1 <= size && r + size <= beforeIndex && FreeRun(disk, r, size)
    ensures forall s :: (0 <= s && s + size <= beforeIndex && 1 <= size && FreeRun(disk, s, size)
      ==> r != -1 && r <= s)
  {
    var spaceStart := -1;
    var spaceSize := 0;
    var i := 0;
    while i < beforeIndex
      invariant 0 <= i <= |disk| && (beforeIndex >= 0 ==> i <= beforeIndex)
      invariant spaceSize == FreeBefore(disk, i) && (spaceSize == 0 <==> spaceStart == -1)
      invariant spaceSize > 0 ==> spaceStart == i - spaceSize
      invariant spaceSize < size || size < 1
      invariant forall s :: 0 <= s && s + size <= i && 1 <= size ==> !FreeRun(disk, s, size)
    {
      if disk[i].None? {
        if spaceStart == -1 {
          spaceStart := i;
        }
        spaceSize := spaceSize + 1;
        if spaceSize == size {
          return spaceStart;
        }
      } else {
        spaceStart := -1;
        spaceSize := 0;
      }
      i := i + 1;
      forall s | 0 <= s && s + size == i && 1 <= size ensures !FreeRun(disk, s, size) {
        if FreeRun(disk, s, size) {
          RunWithinFree(disk, s, size, i);
        }
      }
    }
    return -1;
  }

  /** A free run ending at `i` is no longer than the free cells counted before `i`. */
  lemma {:induction false} RunWithinFree(disk: seq<Cell>, s: int, size: int, i: nat)
    requires i <= |disk| && s + size == i && 1 <= size && FreeRun(disk, s, size)
    ensures size <= FreeBefore(disk, i)
    decreases size
  {
    if size > 1 {
      RunWithinFree(disk, s, size - 1, i - 1);
    }
  }

  /** `findRightmostBlock`'s result: the last cell holding a file not yet processed, and
      how many cells of that same file run leftwards from it; `(-1, 0)` when there is
      none. */
  function RightmostBlock(disk: seq<Cell>, processed: set<nat>): (r: (int, nat))
    ensures r.0 == -1 ==> r.1 == 0 && forall i :: 0 <= i < |disk| ==> disk[i].None? || disk[i].value in processed
    ensures r.0 != -1 ==> (0 <= r.0 < |disk| && disk[r.0].Some? && disk[r.0].value !in processed
      && (forall i :: r.0 < i < |disk| ==> disk[i].None? || disk[i].value in processed)
      && 1 <= r.1 <= r.0 + 1 && FileRun(disk, r.0, r.1, disk[r.0])
      && (r.0 - r.1 >= 0 ==> disk[r.0 - r.1] != disk[r.0]))
  {
    var e := LastUnprocessed(disk, processed, |disk|);
    if e == -1 then (-1, 0) else (e, RunLength(disk, e, disk[e]))
  }

  /** The last index below `end` holding a file not in `processed`, or -1. */
  function LastUnprocessed(disk: seq<Cell>, processed: set<nat>, end: nat): (r: int)
    requires end <= |disk|
    ensures -1 <= r < end
    ensures r >= 0 ==> disk[r].Some? && disk[r].value !in processed
    ensures forall i :: r < i < end ==> disk[i].None? || disk[i].value in processed
  {
    if end == 0 then -1
    else if disk[end - 1].Some? && disk[end - 1].value !in processed then end - 1
    else LastUnprocessed(disk, processed, end - 1)
  }

  /** How many cells equal to `c` run leftwards from index `i`. */
  function RunLength(disk: seq<Cell>, i: int, c: Cell): (n: nat)
    requires -1 <= i < |disk|
    ensures n <= i + 1 && (forall k :: i - n < k <= i ==> disk[k] == c) && (i - n >= 0 ==> disk[i - n] != c)
    decreases i + 1
  {
    if i < 0 || disk[i] != c then 0 else RunLength(disk, i - 1, c) + 1
  }

  /** `findRightmostBlock`: the downward loop that finds the first unprocessed file and
      counts its cells until a different file or a free or processed cell. */
  method FindRightmostBlock(disk: seq<Cell>, processed: set<nat>) returns (blockStart: int, blockSize: nat)
    ensures (blockStart, blockSize) == RightmostBlock(disk, processed)
  {
    var currentId: Option<nat> := None;
    blockStart := -1;
    blockSize := 0;
    var i := |disk| - 1;
    while i >= 0
      invariant -1 <= i < |disk|
      invariant currentId.None? ==> blockStart == -1 && blockSize == 0 && LastUnprocessed(disk, processed, |disk|) == LastUnprocessed(disk, processed, i + 1)
      invariant currentId.Some? ==> (blockStart == LastUnprocessed(disk, processed, |disk|) && blockStart >= 0
        && disk[blockStart] == currentId && blockSize == blockStart - i
        && forall k :: i < k <= blockStart ==> disk[k] == currentId)
    {
      var block := disk[i];
      if block.Some? && block.value !in processed {
        if currentId.None? || currentId == block {
          currentId := block;
          blockSize := blockSize + 1;
          if blockStart == -1 {
            blockStart := i;
          }
        } else {
          RunEnds(disk, blockStart, i);
          return;
        }
      } else if currentId.Some? {
        RunEnds(disk, blockStart, i);
        return;
      }
      i := i - 1;
    }
    if blockStart != -1 {
      RunEnds(disk, blockStart, i);
    }
  }

  /** A run of equal cells from `e` down to `i + 1` that stops at `i` has length `e - i`. */
  lemma RunEnds(disk: seq<Cell>, e: int, i: int)
    requires -1 <= i < e < |disk|
    requires forall k :: i < k <= e ==> disk[k] == disk[e]
    requires i >= 0 ==> disk[i] != disk[e]
    ensures RunLength(disk, e, disk[e]) == e - i
    decreases e - i
  {
    if e - 1 > i {
      RunEnds(disk, e - 1, i);
      assert disk[e - 1] == disk[e];
    }
  }

  /** The file ids present on a disk. */
  function Ids(c: seq<Cell>): set<nat> {
    set i | 0 <= i < |c| && c[i].Some? :: c[i].value
  }

  lemma SameIds(a: seq<Cell>, b: seq<Cell>)
    requires multiset(a) == multiset(b)
    ensures Ids(a) == Ids(b)
  {
    forall id | id in Ids(a) ensures id in Ids(b) {
      var i :| 0 <= i < |a| && a[i] == Some(id);
      assert a[i] in multiset(b);
    }
    forall id | id in Ids(b) ensures id in Ids(a) {
      var i :| 0 <= i < |b| && b[i] == Some(id);
      assert b[i] in multiset(a);
    }
  }

  /** Marking a present, unprocessed file id as processed shrinks the set of file ids
      still to process. */
  lemma FreshId(cur: seq<Cell>, disk: seq<Cell>, processed: set<nat>, e: int)
    requires multiset(cur) == multiset(disk) && 0 <= e < |cur| && cur[e].Some? && cur[e].value !in processed
    ensures |Ids(disk) - (processed + {cur[e].value})| < |Ids(disk) - processed|
  {
    SameIds(cur, disk);
    var a := Ids(disk) - processed;
    assert cur[e].value in Ids(cur);
    assert Ids(disk) - (processed + {cur[e].value}) == a - {cur[e].value};
  }

  /** `compactDiskBlocks`: on a copy, take the rightmost file not yet processed, mark it
      processed, and move all its cells into the leftmost free run of its length that
      lies before it, if any. Each file id is processed at most once, so the loop ends;
      the result has the same length and multiset of cells. */
  method CompactDiskBlocks(disk: seq<Cell>) returns (result: seq<Cell>)
    ensures |result| == |disk| && multiset(result) == multiset(disk)
  {
    var work := new Cell[|disk|](i requires 0 <= i < |disk| => disk[i]);
    assert work[..] == disk;
    var processed: set<nat> := {};
    while true
      invariant work.Length == |disk| && multiset(work[..]) == multiset(disk)
      decreases |Ids(disk) - processed|
    {
      var blockEnd, blockSize := FindRightmostBlock(work[..], processed);
      if blockEnd == -1 || blockSize == 0 {
        break;
      }
      var fileId := work[blockEnd];
      if fileId.None? {
        break;
      }
      ghost var before := processed;
      FreshId(work[..], disk, processed, blockEnd);
      processed := processed + {fileId.value};
      var spaceStart := FindLeftmostFitSpace(work[..], blockEnd, blockSize);
      if spaceStart != -1 {
        BlockLeftOfFile(work[..], spaceStart, blockEnd, blockSize);
        MoveBlock(work, spaceStart, blockEnd, blockSize, fileId);
      }
    }
    result := work[..];
  }

  /** A free run found before the end of a file block lies wholly before the block's first
      cell: the run's cells are free and the block's are not. */
  lemma BlockLeftOfFile(disk: seq<Cell>, s: int, e: int, size: nat)
    requires 1 <= size && 0 <= e < |disk| && disk[e].Some? && FileRun(disk, e, size, disk[e])
    requires s + size <= e && FreeRun(disk, s, size)
    ensures s + size <= e - size + 1
  {
    var k := s + size - 1;
    assert disk[k].None?;
  }

  /** The inner loop of `compactDiskBlocks`: the run `[s, s + size)` receives the file and
      the block `(e - size, e]` becomes free; nothing else changes. */
  method MoveBlock(work: array<Cell>, s: int, e: int, size: nat, fileId: Cell)
    requires 0 <= s && s + size <= e - size + 1 && e < work.Length
    requires FreeRun(work[..], s, size) && FileRun(work[..], e, size, fileId)
    modifies work
    ensures multiset(work[..]) == multiset(old(work[..]))
    ensures work[..] == Moved(old(work[..]), s, e, size, fileId)
  {
    ghost var orig := work[..];
    var i := 0;
    while i < size
      invariant 0 <= i <= size && work[..] == Moved(orig, s, e, i, fileId)
    {
      MovedStep(orig, s, e, i, size, fileId);
      work[s + i] := fileId;
      work[e - i] := None;
      i := i + 1;
    }
    MovedCells(orig, s, e, size, size, fileId);
  }

  /** The `size` cells ending at `e` all hold `fileId`. */
  predicate FileRun(disk: seq<Cell>, e: int, size: nat, fileId: Cell) {
    size <= e + 1 && e < |disk| && forall k :: e - size < k <= e ==> disk[k] == fileId
  }

  /** The cells after `i` steps of `MoveBlock`: the first `i` cells of the run from `s`
      hold the file, the last `i` cells of the block ending at `e` are free, and every
      other cell is as it was. */
  function Moved(orig: seq<Cell>, s: int, e: int, i: nat, fileId: Cell): (r: seq<Cell>)
    ensures |r| == |orig|
  {
    seq(|orig|, k requires 0 <= k < |orig| => if s <= k < s + i then fileId else if e - i < k <= e then None else orig[k])
  }

  /** One step of `MoveBlock` moves one cell of the file into the free run. */
  lemma MovedStep(orig: seq<Cell>, s: int, e: int, i: nat, size: nat, fileId: Cell)
    requires 0 <= s && s + size <= e - size + 1 && e < |orig| && i < size
    requires FreeRun(orig, s, size) && FileRun(orig, e, size, fileId)
    ensures var b := Moved(orig, s, e, i, fileId);
      b[s + i] == None && b[e - i] == fileId
      && Moved(orig, s, e, i + 1, fileId) == b[s + i := fileId][e - i := None]
  {
  }

  /** Every step of `MoveBlock` exchanges a free cell with a file cell, so the multiset of
      cells never changes. */
  lemma {:induction false} MovedCells(orig: seq<Cell>, s: int, e: int, i: nat, size: nat, fileId: Cell)
    requires 0 <= s && s + size <= e - size + 1 && e < |orig| && i <= size
    requires FreeRun(orig, s, size) && FileRun(orig, e, size, fileId)
    ensures multiset(Moved(orig, s, e, i, fileId)) == multiset(orig)
  {
    if i > 0 {
      var b := Moved(orig, s, e, i - 1, fileId);
      var x, y := s + i - 1, e - i + 1;
      var next := b[x := fileId][y := None];
      MovedCells(orig, s, e, i - 1, size, fileId);
      MovedStep(orig, s, e, i - 1, size, fileId);
      SwapCells(b, x, y, fileId, None);
      assert multiset(next) == multiset(b);
      assert Moved(orig, s, e, i, fileId) == next;
    } else {
      MovedNone(orig, s, e, fileId);
    }
  }

  /** Before the first step nothing has moved. */
  lemma MovedNone(orig: seq<Cell>, s: int, e: int, fileId: Cell)
    ensures Moved(orig, s, e, 0, fileId) == orig
  {
  }

  /** Exchanging two cells keeps the multiset of cells. */
  lemma SwapCells(b: seq<Cell>, x: nat, y: nat, u: Cell, v: Cell)
    requires x < y < |b| && b[x] == v && b[y] == u
    ensures multiset(b[x := u][y := v]) == multiset(b)
  {
  }

  /** Σ i · fileId over the file cells. */
  function Checksum(c: seq<Cell>): int {
    if c == [] then 0
    else Checksum(c[..|c| - 1]) + (if c[|c| - 1].Some? then (|c| - 1) * c[|c| - 1].value else 0)
  }

  /** A disk that ends in free cells has the checksum of its file part. */
  lemma {:induction false} ChecksumFreeTail(c: seq<Cell>, n: nat)
    requires n <= |c| && forall i :: n <= i < |c| ==> c[i].None?
    ensures Checksum(c) == Checksum(c[..n])
  {
    if |c| > n {
      assert c[|c| - 1].None?;
      assert c[..|c| - 1][..n] == c[..n];
      ChecksumFreeTail(c[..|c| - 1], n);
    } else {
      assert c[..n] == c;
    }
  }

  /** `calculateChecksum`. */
  method CalculateChecksum(disk: seq<Cell>) returns (checksum: int)
    ensures checksum == Checksum(disk)
  {
    checksum := 0;
    var i := 0;
    while i < |disk|
      invariant 0 <= i <= |disk| && checksum == Checksum(disk[..i])
    {
      assert disk[..i + 1][..i] == disk[..i];
      if disk[i].Some? {
        checksum := checksum + i * disk[i].value;
      }
      i := i + 1;
    }
    assert disk[..i] == disk;
  }

  /** The disk map a solver reads: the text up to the first backslash-`n` pair. */
  function DiskMap(data: string): string {
    Split(data, "\\n")[0]
  }

  /** The blocks `parseDiskMap` produces, as a value. */
  function Parsed(input: string): seq<Block> {
    seq(|input|, i requires 0 <= i < |input| => Block(if i % 2 == 0 then Some(i / 2) else None, SizeOf(input[i])))
  }

  /** `solve_pt1` / `solve_pt2` on the file text: the split is on the two characters
      backslash and `n` (the source writes `'\\n'`), so the disk map is the text up to
      the first such pair; the checksum of the compacted expansion. */
  method Solve(data: string, wholeFiles: bool) returns (checksum: int, ghost final: seq<Cell>)
    ensures multiset(final) == multiset(Expand(Parsed(DiskMap(data)))) && checksum == Checksum(final)
    ensures !wholeFiles ==> Compacted(final)
  {
    var lines := Split(data, "\\n");
    var blocks := ParseDiskMap(lines[0]);
    var expanded := ExpandDiskMap(blocks);
    var compacted: seq<Cell>;
    if wholeFiles {
      compacted := CompactDiskBlocks(expanded);
    } else {
      compacted := CompactDisk(expanded);
    }
    checksum := CalculateChecksum(compacted);
    final := compacted;
  }
}
