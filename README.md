# advent2024 in Dafny

A model of the Advent of Code 2024 solvers in this repository (and of the 2023 day 1
example), one Dafny module per solver file. The centrepiece is the wide-warehouse
simulation of day 15, part 2: a robot walks a grid whose boxes are two cells wide (`[` `]`)
and pushes chains of boxes sideways and trees of boxes up and down. The grid is a mutable
object whose rows the push and move operations rewrite in place, exactly in the order the
TypeScript writes its cells; the read-only push check is a function, and the pairing
invariant (`[` at x exactly when `]` at x + 1) is proved to survive every move.

Every other solver file becomes its own module: the parsing and scanning helpers, the
state machines (virtual machine, guard walk, warehouses), the searches and the counting
loops, each with the property the solver relies on proved about it. The shared modules
`Wrappers` (`Option`, and `Result` for a thrown `Error`) and `JsText` (the JavaScript
string operations `split`, `join`, `trim`, `indexOf`, `lastIndexOf`, `parseInt`,
`String(n)` written out over `seq<char>`) are used throughout.

JavaScript numbers are modelled as unbounded `int`, strings as `seq<char>` (one element per character; UTF-16 surrogate pairs are not modelled), `Map`/`Set`
as `map`/`set`, and regular expressions as hand-written scanners. Reading files, printing
and timing are not modelled: each solver is handed its input text or its parsed input.

## Model

| member | source | states |
|---|---|---|
| Day15WideGrid.WidenRow | solved_work_Day15/02_PUZZLE_SOLUTION/index.ts:23-32 | a map row of recognised characters doubles in width, and every widened row already satisfies the pairing invariant |
| Day15WideGrid.WidenRowAt | solved_work_Day15/02_PUZZLE_SOLUTION/index.ts:24-31 | cells 2i and 2i+1 of a widened row are the two cells character i widens into (`@`→`@.`, `O`→`[]`, `#`→`##`, `.`→`..`) |
| Day15WideGrid.ParseInput | solved_work_Day15/02_PUZZLE_SOLUTION/index.ts:15-38 | an input that does not split on a blank line into exactly two parts throws; otherwise the grid is the widened map and the movements are the second part with newlines removed and trimmed |
| Day15WideGrid.FirstRobot | solved_work_Day15/02_PUZZLE_SOLUTION/index.ts:40-49 | the result is an `@` cell and no `@` comes before it in row-major order; with no `@` there is none |
| Day15WideGrid.FindRobot | solved_work_Day15/02_PUZZLE_SOLUTION/index.ts:40-49 | the nested loop returns the first `@` in row-major order and throws when there is none |
| Day15WideGrid.IsValidMove | solved_work_Day15/02_PUZZLE_SOLUTION/index.ts:51-61 | out of bounds is a wall, `.` is valid, `[` or `]` is a box, anything else is a wall |
| Day15WideGrid.CanPushBox | solved_work_Day15/02_PUZZLE_SOLUTION/index.ts:63-225 | the push check only reads the grid; it is false past depth 20 and for an unknown direction |
| Day15WideGrid.VerticalPushRules | solved_work_Day15/02_PUZZLE_SOLUTION/index.ts:92-189 | a vertical push is refused off the grid and by a wall over either footprint cell, succeeds onto two free cells, and over a `][` straddle (with no wall beside it) succeeds exactly when both straddling boxes can be pushed |
| Day15WideGrid.CanPushMonotone | solved_work_Day15/02_PUZZLE_SOLUTION/index.ts:63-64 | a push allowed from a deeper starting depth is allowed from a shallower one |
| Day15WideGrid.CanPushLeftIff | solved_work_Day15/02_PUZZLE_SOLUTION/index.ts:72-81 | a left push succeeds exactly when a chain of at most 21 - depth box cells at even distances ends in a free cell |
| Day15WideGrid.CanPushRightIff | solved_work_Day15/02_PUZZLE_SOLUTION/index.ts:83-90 | a right push succeeds exactly when such a chain ends in a free cell that is not the last column |
| Day15WideGrid.RightPushNeedsSpareColumn | solved_work_Day15/02_PUZZLE_SOLUTION/index.ts:85 | a box is never pushed right into the last column, even onto a free cell |
| Day15WideGrid.SlideLeftPaired | solved_work_Day15/02_PUZZLE_SOLUTION/index.ts:237-246 | sliding a left chain by one cell keeps the row paired |
| Day15WideGrid.SlideRightPaired | solved_work_Day15/02_PUZZLE_SOLUTION/index.ts:248-257 | sliding a right chain by one cell keeps the row paired |
| Day15WideGrid.PushLeft | solved_work_Day15/02_PUZZLE_SOLUTION/index.ts:237-246 | the left case of moveBox succeeds exactly when canPushBox allows it and then slides the whole chain one cell left; on failure the grid is unchanged |
| Day15WideGrid.PushRight | solved_work_Day15/02_PUZZLE_SOLUTION/index.ts:248-257 | the right case of moveBox succeeds exactly when canPushBox allows it and then slides the whole chain one cell right; on failure the grid is unchanged |
| Day15WideGrid.CommitVertical | solved_work_Day15/02_PUZZLE_SOLUTION/index.ts:286-290 | the four writes move a box one row, changing only the two rows involved and keeping every row paired |
| Day15WideGrid.StraddleTargets | solved_work_Day15/02_PUZZLE_SOLUTION/index.ts:266-271 | a `][` straddle is two whole boxes; after the left one is cleared the right one is still whole, and after both the footprint is free |
| Day15WideGrid.ClearFootprint | solved_work_Day15/02_PUZZLE_SOLUTION/index.ts:265-284 | the boxes in front of a vertically pushed box are moved (left straddling box first, then the right one against the partly updated grid); pairing is kept and rows behind the push are untouched |
| Day15WideGrid.PushVertical | solved_work_Day15/02_PUZZLE_SOLUTION/index.ts:259-327 | a vertical push that canPushBox refuses changes nothing; otherwise pairing is kept, rows behind the push are untouched and on success the pushed box's cells are freed and the box stands as `[` `]` on the same columns of the row ahead |
| Day15WideGrid.MoveBox | solved_work_Day15/02_PUZZLE_SOLUTION/index.ts:227-331 | moveBox re-checks canPushBox (a refused push changes nothing), slides sideways chains exactly, and keeps a vertically pushed grid paired, with the pushed box, on success, landed as `[` `]` on its own columns of the row ahead |
| Day15WideGrid.MoveRobot | solved_work_Day15/02_PUZZLE_SOLUTION/index.ts:333-371 | a missing robot throws; an unknown direction or a blocked target changes nothing; a step or a push leaves `.` on the old robot cell and `@` on the target; a vertical push that succeeds lands the box as `[` `]` in the row ahead, and one that fails leaves the box's row as it was; the grid stays paired |
| Day15WideGrid.CalculateGps | solved_work_Day15/02_PUZZLE_SOLUTION/index.ts:378-393 | the nested loop returns the sum of 100·y + x over the `[` cells |
| Day15WideGrid.GpsIgnoresOtherCells | solved_work_Day15/02_PUZZLE_SOLUTION/index.ts:378-393 | rewriting a cell that is not `[` into another non-`[` value leaves the GPS sum unchanged |
| Day15WideGrid.PlayMoves | solved_work_Day15/02_PUZZLE_SOLUTION/index.ts:401-404 | only a map without a robot, met by a direction character, makes it throw; otherwise the final grid is one that playing the characters in order leaves (`Played`): others are skipped, each direction is one `moveRobot` step as `Moved` describes it; the grid stays paired and rectangular |
| Day15WideGrid.SolvePart2 | solved_work_Day15/02_PUZZLE_SOLUTION/index.ts:395-407 | parse errors throw, and so does a direction on a map without a robot; otherwise the answer is the GPS sum of a grid that playing the parsed movements on the widened map leaves, still paired |
| Day15WideGrid.PlayedSkipsOthers | solved_work_Day15/02_PUZZLE_SOLUTION/index.ts:401-402 | a movement string without a direction character leaves the grid unchanged |
| Day01Lists.NonBlank | solved_work_Day1/02_PUZZLE_SOLUTION/index.ts:9 | blank lines are dropped and nothing else is added |
| Day01Lists.ParseInput | solved_work_Day1/02_PUZZLE_SOLUTION/index.ts:8-20 | one left and one right entry per non-blank line, parsed from its first and second space-separated field |
| Day01Lists.SortAscending | solved_work_Day1/02_PUZZLE_SOLUTION/index.ts:27-28 | the sorted copy is ascending and a permutation of the list |
| Day01Lists.SortedUnique | solved_work_Day1/02_PUZZLE_SOLUTION/index.ts:27-28 | two ascending permutations of the same multiset are equal |
| Day01Lists.SolvePart1 | solved_work_Day1/02_PUZZLE_SOLUTION/index.ts:22-36 | lists of different length throw; otherwise the total is NaN exactly when some entry of either list is NaN or `undefined`, and else it is the sum of the distances between the sorted copies |
| Day01Lists.DistanceOfPermutation | solved_work_Day1/02_PUZZLE_SOLUTION/index.ts:27-35 | the distance is 0 when one list is a permutation of the other |
| Day01Lists.DistanceIgnoresOrder | solved_work_Day1/02_PUZZLE_SOLUTION/index.ts:27-35 | the distance does not depend on the order of the left list |
| Day01Lists.SolvePart2 | solved_work_Day1/02_PUZZLE_SOLUTION/index.ts:38-54 | the score is NaN exactly when some left entry is NaN; otherwise the frequency map and the pass over the left list give the sum of left[i] times its number of occurrences among the numbers on the right |
| Day01Lists.SimilaritySymmetric | solved_work_Day1/02_PUZZLE_SOLUTION/index.ts:38-54 | the similarity score is symmetric in the two lists |
| Day15Narrow.Next | node_runner/src/solved/index.day15.pt1.ts:101-108 | one step moves one cell up, down, left or right |
| Day15Narrow.BoxAt | node_runner/src/solved/index.day15.pt1.ts:120-122 | the index of the first box at the cell, or -1 exactly when no box stands there |
| Day15Narrow.ChainShape | node_runner/src/solved/index.day15.pt1.ts:82-99 | a chain that is found lists, in order, the boxes on consecutive cells from the start; every cell they move into is inside the map and not a wall, and the cell after the last box holds no box |
| Day15Narrow.ChainDistinct | node_runner/src/solved/index.day15.pt1.ts:82-99 | no box index occurs twice in a chain |
| Day15Narrow.CanMoveIff | node_runner/src/solved/index.day15.pt1.ts:64-80 | a move is allowed exactly when the target is inside the map and not a wall and either holds no box or starts a chain that ends before a wall or the edge |
| Day15Narrow.Warehouse.constructor | node_runner/src/solved/index.day15.pt1.ts:19-38 | the boxes are the `O` cells in row-major order, the robot is the last `@`, and the warehouse invariant holds |
| Day15Narrow.InitialConsistent | node_runner/src/solved/index.day15.pt1.ts:28-38 | the scanned boxes and robot lie on distinct valid cells, with no box under the robot |
| Day15Narrow.Warehouse.GetBoxChain | node_runner/src/solved/index.day15.pt1.ts:82-99 | the loop returns the chain of boxes from the start cell, or the empty list when a box is followed by a wall or the edge |
| Day15Narrow.Warehouse.CanMoveNow | node_runner/src/solved/index.day15.pt1.ts:64-80 | the method decides the move as the chain function does |
| Day15Narrow.Warehouse.Move | node_runner/src/solved/index.day15.pt1.ts:44-62 | a refused move changes nothing; an allowed move steps the robot and exactly the chained boxes; an undefined robot or a non-direction character throws; the warehouse invariant is kept |
| Day15Narrow.Warehouse.ShiftChain | node_runner/src/solved/index.day15.pt1.ts:53-58 | walking the chain from its last box to its first steps each of its boxes once and no other box |
| Day15Narrow.MoveKeepsConsistent | node_runner/src/solved/index.day15.pt1.ts:44-62 | after an allowed move the boxes are still on distinct valid cells and none is under the robot |
| Day15Narrow.MoveGps | node_runner/src/solved/index.day15.pt1.ts:44-62 | an allowed move changes the GPS sum by the number of pushed boxes times 100 (vertical) or 1 (horizontal), and pushes a box exactly when one stood on the target |
| Day15Narrow.GpsShifted | node_runner/src/solved/index.day15.pt1.ts:124-134 | stepping a set of distinct boxes changes the GPS sum by their number times the step's weight |
| Day15Narrow.Warehouse.CalculateGps | node_runner/src/solved/index.day15.pt1.ts:124-134 | the loop returns the sum of 100·y + x over the boxes |
| Day15Narrow.FirstBlank | node_runner/src/solved/index.day15.pt1.ts:159 | the index of the first line that trims to empty, or -1 when none does |
| Day15Narrow.ParseInput | node_runner/src/solved/index.day15.pt1.ts:158-163 | with a blank line, the map is the lines before it and the moves are the line after it (undefined past the end) |
| Day15Narrow.Play | node_runner/src/solved/index.day15.pt1.ts:150-152 | playing the moves keeps the warehouse invariant and the number of boxes, and throws exactly when a move character is not a direction or the robot is missing |
| Day15Narrow.SolvePart1 | node_runner/src/solved/index.day15.pt1.ts:145-155 | the answer is the GPS sum after playing the parsed moves; an empty map, a missing moves line or a bad move character throws |
| Day15BoxList.WallRow | node_runner/src/index.ts:44-55 | wide wall cells 2x and 2x+1 are walls exactly when map character x is `#` |
| Day15BoxList.ParseMap | node_runner/src/index.ts:44-65 | the loops build the double-width wall grid, list an `O` as a box with left edge 2x in row-major order, and keep the last `@` as the robot at 2x |
| Day15BoxList.GridBoxesCells | node_runner/src/index.ts:56-58 | every parsed box has an even left edge whose map character is `O` |
| Day15BoxList.GridRobotCell | node_runner/src/index.ts:59-61 | the parsed robot stands on an `@` at an even column, and there is one exactly when the map holds an `@` |
| Day15BoxList.StripNewlines | node_runner/src/index.ts:36 | splitting on newlines and joining with nothing removes exactly the newlines |
| Day15BoxList.WideWarehouse.constructor | node_runner/src/index.ts:16-42 | the warehouse holds the parsed walls, boxes, robot and the trimmed movement string |
| Day15BoxList.BoxIndex | node_runner/src/index.ts:72-78 | the index of the first box covering the cell (its left edge or the cell right of it), or -1 exactly when none does |
| Day15BoxList.StepRefused | node_runner/src/index.ts:115-133 | a character outside `^v<>` and a move into a wall, which every cell off the grid is, return false and change nothing |
| Day15BoxList.FreeStepSucceeds | node_runner/src/index.ts:154-158 | a move onto a cell that is neither wall nor box always succeeds and moves only the robot |
| Day15BoxList.VerticalPushRefused | node_runner/src/index.ts:80-109 | canPushBox is false for dx = 0, so walking up or down into a box fails and changes nothing |
| Day15BoxList.LeftPushRefused | node_runner/src/index.ts:93-106 | a left push tests the box's own left edge, which the box covers, so a left push never succeeds |
| Day15BoxList.PushMovesOneBox | node_runner/src/index.ts:136-147 | a push that succeeds is a right push and moves only the first box covering the target, by one cell, with the robot onto the target |
| Day15BoxList.StepBoxesDrift | node_runner/src/index.ts:111-162 | no move changes a box's row or moves a box left |
| Day15BoxList.WideWarehouse.Move | node_runner/src/index.ts:111-162 | the method's new robot, boxes and result are those of one step as specified |
| Day15BoxList.Play | node_runner/src/index.ts:188-198 | playing a movement string keeps the number of boxes, every box's row, and never moves a box left |
| Day15BoxList.WideWarehouse.ProcessMovements | node_runner/src/index.ts:188-203 | the loop plays every movement character in order and returns the GPS sum of the final boxes |
| Day15BoxList.WideWarehouse.CalculateGps | node_runner/src/index.ts:177-186 | the loop returns the sum of 100·y + x/2 over the boxes, as an exact rational |
| Day15BoxList.SolvePart2 | node_runner/src/index.ts:232-235 | a missing movement part or a map without `@` throws; otherwise the answer is the GPS sum after all movements |
| Day15RowText.WidenLineAt | work/02_PUZZLE_SOLUTION/index.ts:18-32 | a widened line is twice as long and characters 2i, 2i+1 are `##`, `[]`, `..`, `@.` or the character doubled, for character i |
| Day15RowText.TransformLine | work/02_PUZZLE_SOLUTION/index.ts:19-31 | the loop over one line builds its widened form |
| Day15RowText.TransformMap | work/02_PUZZLE_SOLUTION/index.ts:18-32 | every row of the map is replaced by its widened form |
| Day15RowText.RobotFrom | work/02_PUZZLE_SOLUTION/index.ts:34-42 | the first row holding `@` and the first `@` in it; none when no row holds one |
| Day15RowText.FindRobot | work/02_PUZZLE_SOLUTION/index.ts:34-42 | the loop with `indexOf('@')` returns that robot position, and throws when there is none |
| Day15RowText.NoAtBefore | work/02_PUZZLE_SOLUTION/index.ts:36 | `indexOf('@')` is the first `@` of the row, -1 when the row has none |
| Day15RowText.Put | work/02_PUZZLE_SOLUTION/index.ts:60-68 | writing a character into a split row replaces it in range and appends it past the end |
| Day15RowText.PushOfPairRefused | work/02_PUZZLE_SOLUTION/index.ts:100-125 | a box whose `[` and `]` are both in place is never pushed, in any direction, so moveBox is not reached for it |
| Day15RowText.StepRefused | work/02_PUZZLE_SOLUTION/index.ts:57-90 | a target off the grid or on `#` makes move return false with rows and robot unchanged |
| Day15RowText.UnknownDirectionStays | work/02_PUZZLE_SOLUTION/index.ts:44-58 | a character outside `<>^v` targets the robot's own cell, which is a valid move, so move reports success and the robot stays |
| Day15RowText.StepWritesRobot | work/02_PUZZLE_SOLUTION/index.ts:58-72 | after a successful move the target shows `@`, the cell right of it `.`, and the robot position is the target |
| Day15RowText.StepCanSplitBox | work/02_PUZZLE_SOLUTION/index.ts:65-68 | writing `.` right of the target overwrites whatever was there: a step right from `@.[]` leaves `.@.]` |
| Day15RowText.WideWarehouse.constructor | work/02_PUZZLE_SOLUTION/index.ts:11-16 | the warehouse holds the widened map, the robot findRobot finds, and the size of the first widened row |
| Day15RowText.WideWarehouse.Move | work/02_PUZZLE_SOLUTION/index.ts:44-79 | the method's new rows, robot and result are those of one step as specified |
| Day15RowText.WideWarehouse.CalculateGps | work/02_PUZZLE_SOLUTION/index.ts:136-153 | the nested loop returns the sum of 100·y + x/2 over the `[` cells of the height × width area, as an exact rational |
| Day15RowText.RowGpsNoBoxes | work/02_PUZZLE_SOLUTION/index.ts:140-149 | a row without `[` in the columns read adds nothing to the sum |
| Day15RowText.Play | work/02_PUZZLE_SOLUTION/index.ts:179-183 | playing a move string keeps the number of rows and the robot on a row of the map |
| Day15RowText.SolvePart2 | work/02_PUZZLE_SOLUTION/index.ts:167-193 | the first line is the moves and the rest the map; a map without `@` returns -1, otherwise the GPS sum after all moves |
| Day09Disk.ParseDiskMap | node_runner/src/solved/index.day9.ts:17-32 | entry i of the map is a file with id i/2 when i is even and free space when i is odd, its size the character's number (a non-digit counts as no cells) |
| Day09Disk.ExpandDiskMap | node_runner/src/solved/index.day9.ts:34-47 | the expansion is the block list's cells in order, `size` copies of each block's file id |
| Day09Disk.ExpandAppend | node_runner/src/solved/index.day9.ts:34-47 | expanding a concatenation of block lists concatenates their expansions |
| Day09Disk.ExpandShape | node_runner/src/solved/index.day9.ts:34-47 | the expansion has Σ size cells and block k's cells follow those of blocks 0..k-1 |
| Day09Disk.FindRightmostFile | node_runner/src/solved/index.day9.ts:49-56 | the last file cell's index, every cell after it free, or -1 when all are free |
| Day09Disk.FindLeftmostSpace | node_runner/src/solved/index.day9.ts:58-65 | the first free cell before `beforeIndex`, every cell before it a file, or -1 when there is none |
| Day09Disk.CalculateChecksum | node_runner/src/solved/index.day9.ts:67-75 | the loop returns Σ i·fileId over the file cells |
| Day09Disk.ChecksumFreeTail | node_runner/src/solved/index.day9.ts:67-75 | free cells at the end do not change the checksum |
| Day09Disk.CompactDisk | node_runner/src/solved/index.day9.ts:77-93 | the compacted copy has the input's length and multiset of cells and no free cell before a file cell; the loop ends because the last file's index drops |
| Day09Disk.FindRightmostBlock | node_runner/src/solved/index.day9.ts:97-117 | the last cell holding an unprocessed file, every later cell free or processed, and the length of the run of that file's cells leftwards from it; (-1, 0) when none |
| Day09Disk.FindLeftmostFitSpace | node_runner/src/solved/index.day9.ts:119-136 | the start of a run of `size` free cells inside [0, beforeIndex) that no other such run precedes, or -1 when there is none or `size` is 0 |
| Day09Disk.BlockLeftOfFile | node_runner/src/solved/index.day9.ts:150-158 | a free run found before a file block's last cell lies wholly left of the block |
| Day09Disk.MoveBlock | node_runner/src/solved/index.day9.ts:155-158 | the free run receives the file id and the block becomes free; all other cells and the multiset of cells are unchanged |
| Day09Disk.FreshId | node_runner/src/solved/index.day9.ts:146-149 | marking the found file processed shrinks the set of file ids still to process, so each file is handled at most once |
| Day09Disk.CompactDiskBlocks | node_runner/src/solved/index.day9.ts:138-162 | the whole-file compaction returns a copy with the input's length and multiset of cells |
| Day09Disk.Solve | node_runner/src/solved/index.day9.ts:164-210 | the checksum of a rearrangement of the expanded disk map; for part 1 the rearrangement has no free cell before a file cell |
| Day17Computer.Combo | node_runner/src/solved/index.day17.ts:17-23 | operands 0-3 read as themselves, a missing operand or one above 6 reads as 0 |
| Day17Computer.ComboSources | node_runner/src/solved/index.day17.ts:17-23 | a literal operand does not depend on the registers; operands 4, 5, 6 read A, B, C |
| Day17Computer.XorInvolution | node_runner/src/solved/index.day17.ts:35-38 | applying opcode 1's XOR twice with the same operand restores B |
| Day17Computer.XorBound | node_runner/src/solved/index.day17.ts:50-53 | XOR of two values below 2^k stays below 2^k |
| Day17Computer.ShrFloor | node_runner/src/solved/index.day17.ts:31-32 | the shifted value v is the floor of A / 2^k: v·2^k ≤ A < (v+1)·2^k, and v ≤ A |
| Day17Computer.StepDivides | node_runner/src/solved/index.day17.ts:31-65 | opcodes 0, 6 and 7 write ⌊A / 2^combo⌋ into A, B and C, and A never grows |
| Day17Computer.StepIp | node_runner/src/solved/index.day17.ts:25-67 | opcode 3 jumps to its operand when A ≠ 0; every other opcode 0-7 advances ip by 2; an unknown opcode changes nothing |
| Day17Computer.StepOutputs | node_runner/src/solved/index.day17.ts:39-57 | a step keeps the outputs so far and appends at most one value, in 0..7, and only opcode 5 appends |
| Day17Computer.Run | node_runner/src/solved/index.day17.ts:86-91 | the bounded run reports halted exactly when ip is past the program (or undefined) |
| Day17Computer.RunOutputs | node_runner/src/solved/index.day17.ts:86-91 | over a run the outputs only grow, and every value is in 0..7 |
| Day17Computer.RunMoreFuel | node_runner/src/solved/index.day17.ts:86-91 | once the program halts, a larger step bound gives the same result |
| Day17Computer.OutputTextRoundTrip | node_runner/src/solved/index.day17.ts:90 | the comma-joined output of values in 0..7 reads back as the output list |
| Day17Computer.Machine.constructor | node_runner/src/solved/index.day17.ts:96-101 | the machine starts at ip 0 with no output |
| Day17Computer.Machine.ExecuteInstruction | node_runner/src/solved/index.day17.ts:25-67 | the new registers, ip and outputs are `Step` of the old ones, and outputs stay in 0..7 |
| Day17Computer.Machine.RunProgram | node_runner/src/solved/index.day17.ts:86-91 | the loop ends in `Run`'s final state and returns the outputs joined with commas |
| Day17Computer.ProgramEntries | node_runner/src/solved/index.day17.ts:78 | each program entry is the number its comma-separated text denotes, or the parse fails naming an entry that is not a plain decimal |
| Day17Computer.ParseInput | node_runner/src/solved/index.day17.ts:71-84 | it throws exactly when fewer than five lines exist or line 4 has no `": "`; registers are read from lines 0-2 and the program has one entry per comma-separated part |
| Day17Computer.SolvePart1 | node_runner/src/solved/index.day17.ts:93-103 | the joined output of the parsed program run from ip 0 with no output, or the parse error |
| Day17Analysis.Padded | solved_work_Day17/02_PUZZLE_SOLUTION/index.ts:103-105 | the padded outputs have at least the program length, keep every real output and add only `undefined` |
| Day17Analysis.Pad | solved_work_Day17/02_PUZZLE_SOLUTION/index.ts:103-105 | the padding loop produces the padded outputs |
| Day17Analysis.CountTrue | solved_work_Day17/02_PUZZLE_SOLUTION/index.ts:110 | the number of true entries is at most the length |
| Day17Analysis.CountTrueBound | solved_work_Day17/02_PUZZLE_SOLUTION/index.ts:107-110 | when every entry from n on is false, at most n entries are true |
| Day17Analysis.MatchCountBound | solved_work_Day17/02_PUZZLE_SOLUTION/index.ts:107-110 | position i matches iff output i is defined, i is below the program length and it equals program[i]; the match count is at most the program length |
| Day17Analysis.AnalyzeOutput | solved_work_Day17/02_PUZZLE_SOLUTION/index.ts:88-123 | from A = value and B = C = 0 at most 1000 steps run, so the analysis ends; the outputs are the bounded run's, padded; the match positions and count are as above |
| Day11Stones.StripZeros | node_runner/src/solved/index.day11.ts:39-40 | the stripped half is non-empty and has no leading zero unless it is "0", and is a suffix of the half or "0" |
| Day11Stones.StripZerosValue | node_runner/src/solved/index.day11.ts:39-40 | stripping keeps a digit string's decimal value |
| Day11Stones.ProcessStone | node_runner/src/solved/index.day11.ts:25-49 | "0" becomes ["1"]; the result has one or two stones; the call throws exactly for an odd-length stone other than "0" that is not a decimal |
| Day11Stones.SplitStoneValue | node_runner/src/solved/index.day11.ts:34-43 | an even-length digit stone splits into two digit stones whose values read back as left · 10^half + right |
| Day11Stones.MultipliedStoneValue | node_runner/src/solved/index.day11.ts:46-48 | an odd-length digit stone other than "0" becomes one stone whose value is 2024 times its own |
| Day11Stones.ProcessStoneDigits | node_runner/src/solved/index.day11.ts:25-49 | digit stones never throw and produce digit stones, canonical decimals when zeros are stripped |
| Day11Stones.GetSet | node_runner/src/solved/index.day11.ts:16 | after `set(k, v)`, `get(k)` reads v and every other key reads what it read before |
| Day11Stones.SetProperties | node_runner/src/solved/index.day11.ts:16 | a `set` changes the total by the difference, keeps keys distinct and adds no key but k |
| Day11Stones.AddAllCounts | node_runner/src/solved/index.day11.ts:15-66 | adding c per text raises each text's count by c times its occurrences and the total by c · length, keeping keys distinct |
| Day11Stones.ArrayToStoneMap | node_runner/src/solved/index.day11.ts:13-23 | the counted map has distinct keys, each stone's count is its number of occurrences, and the total is the input length |
| Day11Stones.Blink | node_runner/src/solved/index.day11.ts:51-75 | the blink fails exactly when some stone cannot be processed |
| Day11Stones.BlinkCounts | node_runner/src/solved/index.day11.ts:51-81 | after a blink each text's count is Σ count · occurrences among the results, keys are distinct, and the total is Σ count · |processStone(stone)| |
| Day11Stones.BlinkGrows | node_runner/src/solved/index.day11.ts:51-75 | a blink's total is between the old total and twice it |
| Day11Stones.BlinkDigits | node_runner/src/solved/index.day11.ts:51-75 | a map of digit stones always blinks into a map of digit stones |
| Day11Stones.BlinksGrow | node_runner/src/solved/index.day11.ts:83-94 | from digit stones any number of blinks succeeds with distinct keys and never lowers the total |
| Day11Stones.BlinksErr | node_runner/src/solved/index.day11.ts:98-104 | once a blink throws, every later blink count ends in the same error |
| Day11Stones.ProcessBlinkMap | node_runner/src/solved/index.day11.ts:51-75 | the two-pass loop computes `Blink` with zeros stripped |
| Day11Stones.AddStones | node_runner/src/solved/index.day11.ts:64-66 | the inner loop adds the entry's count for every resulting stone |
| Day11Stones.ProcessDirectly | node_runner/src/solved/index.day11.ts:83-94 | the total after exactly `totalBlinks` blinks of the counted input, or the error |
| Day11Stones.Solve | node_runner/src/solved/index.day11.ts:96-116 | the total after 25 or 75 blinks of the trimmed, space-split input, or 0 when a stone throws |
| Day11Cycles.SplitKeepsZeros | solved_work_Day11/02_PUZZLE_SOLUTION/index.ts:42-48 | "1000" splits into "10" and "00" here and into "10" and "0" in the stripping variant |
| Day11Cycles.LessStrictTotal | solved_work_Day11/02_PUZZLE_SOLUTION/index.ts:30 | the key order is irreflexive, asymmetric and total on different texts |
| Day11Cycles.LessTrans | solved_work_Day11/02_PUZZLE_SOLUTION/index.ts:30 | the key order is transitive |
| Day11Cycles.Insert | solved_work_Day11/02_PUZZLE_SOLUTION/index.ts:30 | an insertion adds exactly the entry to the sorted list's entries |
| Day11Cycles.InsertSorted | solved_work_Day11/02_PUZZLE_SOLUTION/index.ts:30 | inserting an entry with a new key keeps the list strictly sorted |
| Day11Cycles.Sort | solved_work_Day11/02_PUZZLE_SOLUTION/index.ts:29-30 | the sorted list has the same entries as the map |
| Day11Cycles.SortSorted | solved_work_Day11/02_PUZZLE_SOLUTION/index.ts:29-30 | with distinct keys the sorted list is strictly increasing by key |
| Day11Cycles.SortedUnique | solved_work_Day11/02_PUZZLE_SOLUTION/index.ts:29-30 | two strictly sorted lists with the same entries are equal |
| Day11Cycles.SerializeContents | solved_work_Day11/02_PUZZLE_SOLUTION/index.ts:28-33 | maps with distinct keys and the same entries serialise to the same text, whatever their insertion order |
| Day11Cycles.ProcessBlinkMap | solved_work_Day11/02_PUZZLE_SOLUTION/index.ts:55-68 | the one-pass loop computes `Blink` with zeros kept |
| Day11Cycles.ProcessDirectly | solved_work_Day11/02_PUZZLE_SOLUTION/index.ts:104-116 | the total after exactly `totalBlinks` blinks, or the error |
| Day11Cycles.FindIndex | solved_work_Day11/02_PUZZLE_SOLUTION/index.ts:80 | the first recorded state that serialises to the signature, or -1 when none does |
| Day11Cycles.HistoryExtend | solved_work_Day11/02_PUZZLE_SOLUTION/index.ts:80-91 | recording a state unlike every recorded one keeps the history exact and free of repeats |
| Day11Cycles.DetectCycle | solved_work_Day11/02_PUZZLE_SOLUTION/index.ts:70-96 | fails exactly when `CycleFrom` does, and otherwise returns the repeat `CycleFrom` finds: a cycle of length n − first ≥ 1 over an exact, repeat-free history of n < maxIterations states whose earliest match is the state after n blinks, or `null` after maxIterations states without a repeat |
| Day11Cycles.JsRem | solved_work_Day11/02_PUZZLE_SOLUTION/index.ts:137 | the JavaScript remainder lies in [0, b) for a non-negative dividend and in (−b, 0] otherwise |
| Day11Cycles.FinalStateInHistory | solved_work_Day11/02_PUZZLE_SOLUTION/index.ts:137-144 | when the repeat starts by blink 75 the final index lies in [first, first + cycleLength); it always lies inside the recorded history |
| Day11Cycles.SolvePart1 | solved_work_Day11/02_PUZZLE_SOLUTION/index.ts:118-127 | the total after 25 blinks, or 0 when a stone throws |
| Day11Cycles.SolvePart2 | solved_work_Day11/02_PUZZLE_SOLUTION/index.ts:129-152 | by the outcome of the cycle search: a stone that throws gives 0; a repeat gives the total of the state after `first + (75 − first) % cycleLength` blinks; no repeat within 100 blinks gives the total of the state after 75 blinks |
| Day02Reports.IsValidSequence | node_runner/src/solved/index.day2.ts:3-25 | true iff the report has at most one level or every step changes it by 1 to 3 in the direction of the first step |
| Day02Reports.Removed | node_runner/src/solved/index.day2.ts:36 | the report with level i dropped: one shorter, the levels before i and after i in order |
| Day02Reports.CanBeMadeValid | node_runner/src/solved/index.day2.ts:27-48 | true iff the report is valid or dropping some single level makes it valid (the final `=== 1` is reached only with a count of 0) |
| Day02Reports.SolvePart1 | node_runner/src/solved/index.day2.ts:55-64 | the number of valid reports |
| Day02Reports.SolvePart2 | node_runner/src/solved/index.day2.ts:76-85 | the number of repairable reports |
| Day02Reports.PartTwoAtLeastPartOne | node_runner/src/solved/index.day2.ts:50-90 | part 2 counts at least as many reports as part 1 |
| Day02Reports.CountMonotone | node_runner/src/solved/index.day2.ts:57-62 | counting under a weaker condition never gives less |
| Day02Reports.IsStrictlyIncreasing | solved_work_Day2/02_PUZZLE_SOLUTION/index.ts:10-15 | true iff every level is above the one before |
| Day02Reports.IsStrictlyDecreasing | solved_work_Day2/02_PUZZLE_SOLUTION/index.ts:18-23 | true iff every level is below the one before |
| Day02Reports.HasValidDifferences | solved_work_Day2/02_PUZZLE_SOLUTION/index.ts:26-32 | true iff every step has size 1 to 3 |
| Day02Reports.IsReportSafe | solved_work_Day2/02_PUZZLE_SOLUTION/index.ts:35-39 | true iff at most one level, or strictly monotone with steps of size 1 to 3 |
| Day02Reports.CanBeMadeSafe | solved_work_Day2/02_PUZZLE_SOLUTION/index.ts:42-51 | true iff the report is safe or some single-level removal is safe |
| Day02Reports.SameRule | solved_work_Day2/02_PUZZLE_SOLUTION/index.ts:35-39 | the second solver's safety rule holds exactly when the first solver's `isValidSequence` rule does |
| Day02Reports.SameRepairRule | solved_work_Day2/02_PUZZLE_SOLUTION/index.ts:42-51 | `canBeMadeSafe` and `canBeMadeValidWithOneOrMoreRemoval` accept the same reports |
| Day02Reports.SolversAgree | solved_work_Day2/02_PUZZLE_SOLUTION/index.ts:53-83 | the second solver's `filter(...).length` counts equal the first solver's counts |
| Day07Equations.ParseLine | node_runner/src/solved/index.day7.ts:10-16 | a line without `:` throws; otherwise the test value and at least one number, each read by `parseInt` |
| Day07Equations.ParseLines | node_runner/src/solved/index.day7.ts:9-17 | fails iff some line has no `:`; otherwise one equation per line, in order |
| Day07Equations.ConcatDigits | node_runner/src/solved/index.day7.ts:30-33 | `a || b` for non-negative numbers is a·10^(digits of b) + b |
| Day07Equations.Apply | node_runner/src/solved/index.day7.ts:23-34 | `+` adds and `*` multiplies two defined values; NaN in either operand gives NaN |
| Day07Equations.EvaluateExpression | node_runner/src/solved/index.day7.ts:20-37 | the loop computes the strict left-to-right fold of the operators over the numbers, starting from numbers[0] |
| Day07Equations.EvalAdds | node_runner/src/solved/index.day7.ts:20-37 | with only `+` the result is the sum of the numbers used |
| Day07Equations.EvalMuls | node_runner/src/solved/index.day7.ts:20-37 | with only `*` the result is the product of the numbers used |
| Day07Equations.NoPrecedence | node_runner/src/solved/index.day7.ts:20-37 | there is no operator precedence: 2 + 3 * 4 evaluates to 20 |
| Day07Equations.NaNPropagates | node_runner/src/solved/index.day7.ts:20-37 | a NaN among the numbers used makes the result NaN |
| Day07Equations.AllPrefixedMembers | node_runner/src/solved/index.day7.ts:44-54 | one level of `generate`: a list is produced iff its head is one of the operators and its tail is a deeper result |
| Day07Equations.AllPrefixedCount | node_runner/src/solved/index.day7.ts:49-53 | one level of `generate` multiplies the number of lists by the number of operators |
| Day07Equations.WordsMembers | node_runner/src/solved/index.day7.ts:40-58 | the lists produced are exactly the lists of the given length over the operators |
| Day07Equations.WordsCount | node_runner/src/solved/index.day7.ts:40-58 | there are \|operators\|^length of them |
| Day07Equations.Generate | node_runner/src/solved/index.day7.ts:44-54 | the backtracking search records `current` extended by every word of the remaining length, first position varying slowest |
| Day07Equations.GenerateOperatorCombinationsPart1 | node_runner/src/solved/index.day7.ts:40-58 | the 2^length lists over `+`, `*` |
| Day07Equations.GenerateOperatorCombinationsPart2 | node_runner/src/solved/index.day7.ts:61-79 | the 3^length lists over `+`, `*`, `\|\|` |
| Day07Equations.ValidIffSolvable | node_runner/src/solved/index.day7.ts:82-87 | an equation is valid iff some operator list of length numbers−1 over the alphabet reaches its test value |
| Day07Equations.Part1ValidIsPart2Valid | node_runner/src/solved/index.day7.ts:89-109 | every equation part 1 accepts, part 2 accepts |
| Day07Equations.NaNNeverValid | node_runner/src/solved/index.day7.ts:82-87 | an equation with a NaN number is never valid |
| Day07Equations.Solve | node_runner/src/solved/index.day7.ts:90-109 | fails exactly when parsing throws; otherwise the sum of the valid equations' test values |
| Day07Equations.SumValidGrows | node_runner/src/solved/index.day7.ts:90-109 | with non-negative test values, the part 2 sum is at least the part 1 sum |
| Day19Towels.BuildWitness | node_runner/src/solved/index.day19.ts:11-40 | when the search answers true, the rest of the design is a concatenation of patterns (a witness is built) |
| Day19Towels.BuildFromWitness | node_runner/src/solved/index.day19.ts:11-40 | when the rest of the design is a concatenation of patterns, the search answers true |
| Day19Towels.TryReaches | node_runner/src/solved/index.day19.ts:28-36 | the pattern loop succeeds once it reaches a pattern that matches and leads to a buildable rest |
| Day19Towels.CanBuildIff | node_runner/src/solved/index.day19.ts:17-39 | `canBuildPattern` holds iff the rest of the design decomposes into patterns, and always at the end of the design (so an empty design is buildable) |
| Day19Towels.AllDecompsExact | node_runner/src/solved/index.day19.ts:42-69 | `countPatternCombinations` equals the number of distinct decompositions (as pattern-index lists) of the rest of the design |
| Day19Towels.DecompsFromExact | node_runner/src/solved/index.day19.ts:58-65 | the loop's running total counts exactly the decompositions whose first pattern index is at least k, each once |
| Day19Towels.HeadGroupExact | node_runner/src/solved/index.day19.ts:61-63 | a matching pattern contributes exactly the decompositions that start with it |
| Day19Towels.CountPositiveIff | node_runner/src/solved/index.day19.ts:29-63 | the count is positive iff the design can be built; it is 1 at the end of the design |
| Day19Towels.CanBuildPattern | node_runner/src/solved/index.day19.ts:11-40 | the memoised search answers `canBuildPattern`'s specification, and every answer it caches is correct |
| Day19Towels.CountPatternCombinations | node_runner/src/solved/index.day19.ts:42-69 | the memoised count equals the number of decompositions, and every cached count is correct |
| Day19Towels.CountPossible | node_runner/src/solved/index.day19.ts:83-88 | the number of designs that can be built, each searched with a fresh cache |
| Day19Towels.CountArrangements | node_runner/src/solved/index.day19.ts:109-114 | the sum of the arrangement counts of the buildable designs |
| Day19Towels.ArrangementsAtLeastBuildable | node_runner/src/solved/index.day19.ts:110-114 | part 2's total is at least part 1's count |
| Day19Towels.ParseInput | node_runner/src/solved/index.day19.ts:74-80 | without a blank line the design text is undefined and the parse throws |
| Day19Towels.Solve | node_runner/src/solved/index.day19.ts:71-121 | an answer exactly when the input parses and no pattern is empty; then both counts, with part 1 ≤ part 2 |
| Day14Robots.WrapIsResidue | node_runner/src/solved/index.day14.ts:92-93 | the double truncated remainder `((a % n) + n) % n` is the mathematical residue of `a` modulo `n`, in `[0, n)`, for negative `a` as well |
| Day14Robots.UpdatePosition | node_runner/src/solved/index.day14.ts:90-95 | the new position lies on the grid and is the old position plus the velocity, wrapped around each axis |
| Day14Robots.StepAfter | node_runner/src/solved/index.day14.ts:90-95 | one more step from the position after `t` seconds is the position after `t + 1` seconds: position plus `t + 1` velocities, wrapped |
| Day14Robots.StepAll | node_runner/src/solved/index.day14.ts:215-217 | every robot is moved by one step and keeps its velocity; the robot list keeps its length and order |
| Day14Robots.StepRobotsAfter | node_runner/src/solved/index.day14.ts:294-301 | stepping the robots as they stand after `t` seconds gives the robots after `t + 1` seconds |
| Day14Robots.Simulate | node_runner/src/solved/index.day14.ts:214-225 | after the simulation loop every robot stands where the closed form puts it after that many seconds |
| Day14Robots.GetQuadrant | node_runner/src/solved/index.day14.ts:97-108 | -1 exactly on the middle row or column; otherwise bit 0 says right half and bit 1 says bottom half |
| Day14Robots.QuadrantsPartition | node_runner/src/solved/index.day14.ts:232-240 | every robot falls in exactly one of the four quadrants or on a middle line: the five counts sum to the number of robots |
| Day14Robots.QuadrantCounts | node_runner/src/solved/index.day14.ts:232-240 | the four counters hold the number of robots in each quadrant |
| Day14Robots.SafetyFactorOfFour | node_runner/src/solved/index.day14.ts:244 | the reduce starting from 1 is the product of the four quadrant counts |
| Day14Robots.SafetyFactorZero | node_runner/src/solved/index.day14.ts:244 | the safety factor is zero exactly when some quadrant is empty |
| Day14Robots.Search | node_runner/src/solved/index.day14.ts:72 | the leftmost match of `tag=(-?\d+),(-?\d+)` in the text, or none when no offset matches |
| Day14Robots.MatchPairText | node_runner/src/solved/index.day14.ts:72-86 | the text `p=x,y` of any integer pair is matched and read back as that same pair |
| Day14Robots.ParseRobot | node_runner/src/solved/index.day14.ts:69-88 | a parsed robot's position and velocity are the first matches in the first and second space-separated parts |
| Day14Robots.ParseRobotErrors | node_runner/src/solved/index.day14.ts:70-76 | no position match gives the position error; a line without a second part throws a type error; no velocity match gives the velocity error |
| Day14Robots.Collect | node_runner/src/solved/index.day14.ts:207 | the mapped parse succeeds iff every line parses, keeps every robot in order, and otherwise reports the first failing line's error |
| Day14Robots.SolvePt1 | node_runner/src/solved/index.day14.ts:206-248 | a parse error is passed on; otherwise the product of the four quadrant counts of the robots after 100 seconds on the 11 by 7 grid |
| Day14Groups.CountUnion | node_runner/src/solved/index.day14.ts:137-145 | the robots standing on two disjoint sets of cells add up |
| Day14Groups.RobotsAt | node_runner/src/solved/index.day14.ts:119-126 | a bucket holds exactly the robots standing on its cell, as many as stand there |
| Day14Groups.SpatialGrid.Add | node_runner/src/solved/index.day14.ts:37-47 | the robot is appended to the bucket of its own cell, and every other bucket is unchanged |
| Day14Groups.SpatialGrid.Clear | node_runner/src/solved/index.day14.ts:64-66 | the grid is left empty |
| Day14Groups.SpatialGrid.GetPotentialNeighbors | node_runner/src/solved/index.day14.ts:49-62 | the buckets of the eight surrounding cells, column by column as the two loops visit them |
| Day14Groups.RingAround | node_runner/src/solved/index.day14.ts:49-62 | a robot is a potential neighbour exactly when it stands on one of the eight cells touching `pos` |
| Day14Groups.NeighborCells | node_runner/src/solved/index.day14.ts:157-158 | the neighbour list is empty exactly when no occupied cell touches `pos` |
| Day14Groups.BuildMaps | node_runner/src/solved/index.day14.ts:115-126 | the spatial grid and the position map hold the same buckets, each bucket being the robots on that cell in input order, and the cells are listed once each in first-seen order |
| Day14Groups.ConnectedGroupSize | node_runner/src/solved/index.day14.ts:132-148 | an already visited cell adds 0; otherwise the size is the number of robots on the newly visited cells, which include `pos`, and every other newly visited cell touches an occupied cell |
| Day14Groups.ScanGroups | node_runner/src/solved/index.day14.ts:151-162 | the largest group is at most the number of robots, and no robot is counted as lone exactly when no listed cell holds one robot with no occupied cell around it |
| Day14Groups.FindContiguousGroups | node_runner/src/solved/index.day14.ts:110-169 | `allConnected` holds exactly when every robot standing alone on its cell has an occupied cell around it; `positions` is the position map of the robots |
| Day14Groups.FirstConnected | node_runner/src/solved/index.day14.ts:264-306 | the first second up to 10000000 at which the robots are all connected, with none connected before; or -1 when no second is |
| Day14Groups.SolvePt2 | node_runner/src/solved/index.day14.ts:250-307 | a parse error is passed on; otherwise the first connected second of the parsed robots on the 101 by 103 grid, or -1 |
| Day06Guard.GuardStartFirst | node_runner/src/solved/index.day6.ts:30-39 | the start found is a `^` with no `^` earlier in row-major order, and there is no start only when no cell holds `^` |
| Day06Guard.FindGuardStart | node_runner/src/solved/index.day6.ts:30-39 | the two scanning loops return the first `^` in row-major order, or `null` |
| Day06Guard.TurnRight | node_runner/src/solved/index.day6.ts:41-45 | the next heading is the one after the current one in `up, right, down, left`, wrapping around |
| Day06Guard.FourTurns | node_runner/src/solved/index.day6.ts:41-45 | four right turns give back the heading, and one, two or three do not |
| Day06Guard.GetNextPosition | node_runner/src/solved/index.day6.ts:47-58 | the next cell is one unit away along one axis: up lowers `y`, right raises `x`, down raises `y`, left lowers `x` |
| Day06Guard.StepBack | node_runner/src/solved/index.day6.ts:47-58 | a step followed by a step in the opposite heading returns to the cell |
| Day06Guard.Step | node_runner/src/solved/index.day6.ts:101-114 | the guard leaves exactly when the cell ahead is off the grid; otherwise it turns right in place before a `#` or moves one cell onto a cell that is not `#` |
| Day06Guard.RepeatNeverLeaves | node_runner/src/solved/index.day6.ts:91-96 | once a state comes back the walk is periodic and the guard never leaves the grid, so a repeat really is a loop |
| Day06Guard.RepeatFound | node_runner/src/solved/index.day6.ts:92-96 | a pass whose state is among the earlier, pairwise different states is the first repeat |
| Day06Guard.Patrol | node_runner/src/solved/index.day6.ts:87-115 | the walk loop answers `null` exactly when the guard eventually leaves the grid, and otherwise the cells visited before the first repeated state; it always ends |
| Day06Guard.SimulateGuardMovement | node_runner/src/solved/index.day6.ts:75-116 | `null` without a `^`; otherwise the guard starts on the first `^` facing up and the result is `null` iff it leaves the grid, else the cells it visited before the first repeat |
| Day06Guard.PlaceKeepsStart | node_runner/src/solved/index.day6.ts:134-137 | writing `#` over a `.` does not move the guard's start |
| Day06Guard.PlaceUndone | node_runner/src/solved/index.day6.ts:136-142 | writing `.` back over the trial obstacle gives back the grid as it was |
| Day06Guard.TrialMeans | node_runner/src/solved/index.day6.ts:134-141 | a trial on a `.` cell other than the start finds a loop exactly when an obstacle there traps the guard |
| Day06Guard.CountStep | node_runner/src/solved/index.day6.ts:138-141 | the loop count grows by one exactly at a trapping cell |
| Day06Guard.ScanRow | node_runner/src/solved/index.day6.ts:133-146 | after a row, the count is the number of trapping cells up to that row, and the grid is back to its original state |
| Day06Guard.CountLoopObstacles | node_runner/src/solved/index.day6.ts:129-149 | the number of `.` cells other than the start, within the first row's width, where one extra obstacle keeps the guard from ever leaving |
| Day06Guard.SolvePt2 | node_runner/src/solved/index.day6.ts:118-150 | without a guard the error `No guard start position found`; otherwise the number of trapping cells |
| Day05Pages.Add | solved_work_Day5/02_PUZZLE_SOLUTION/index.ts:105 | a sum is a number only when both addends are, and then it is their sum; NaN absorbs |
| Day05Pages.ParseUpdate | solved_work_Day5/02_PUZZLE_SOLUTION/index.ts:30-32 | an update has one page per comma-separated field, each read with `Number`, and is never empty |
| Day05Pages.ParseRules | solved_work_Day5/02_PUZZLE_SOLUTION/index.ts:24-27 | one rule per line of the rule section, in order |
| Day05Pages.ParseUpdates | solved_work_Day5/02_PUZZLE_SOLUTION/index.ts:30-32 | one update per line of the update section, in order, none of them empty |
| Day05Pages.ParseInput | solved_work_Day5/02_PUZZLE_SOLUTION/index.ts:18-33 | the input fails with a `TypeError` exactly when the trimmed text has no blank-line-separated second section; otherwise the first section gives the rules and the second the updates |
| Day05Pages.IndexOfPage | solved_work_Day5/02_PUZZLE_SOLUTION/index.ts:38-39 | `indexOf` gives -1 for NaN and for an absent page, and otherwise the first position holding the page |
| Day05Pages.ValidMeansOrdered | solved_work_Day5/02_PUZZLE_SOLUTION/index.ts:35-50 | an update obeys the rules exactly when, for every rule whose two (non-NaN) pages it prints, the first printing of the `before` page is no later than that of the `after` page |
| Day05Pages.Solution.IsValidUpdate | solved_work_Day5/02_PUZZLE_SOLUTION/index.ts:35-50 | the rule loop answers true exactly when no rule has both pages present with the `before` page later |
| Day05Pages.MiddlePage | solved_work_Day5/02_PUZZLE_SOLUTION/index.ts:52-55 | the middle page has as many pages after it as before it, or one fewer after it for an even length; an empty update has no middle page (NaN) |
| Day05Pages.Invalid | solved_work_Day5/02_PUZZLE_SOLUTION/index.ts:101-111 | the kept updates are updates of the input that break some rule, no more of them than the input has |
| Day05Pages.Valid | solved_work_Day5/02_PUZZLE_SOLUTION/index.ts:101-111 | the summed updates are updates of the input that obey every rule |
| Day05Pages.ValidInvalidPartition | solved_work_Day5/02_PUZZLE_SOLUTION/index.ts:101-111 | every update is either summed or kept, never both |
| Day05Pages.SumValidIsSum | solved_work_Day5/02_PUZZLE_SOLUTION/index.ts:101-111 | when no middle page is NaN, part 1's sum is the integer sum of the middle pages of exactly the valid updates |
| Day05Pages.Solution.constructor | solved_work_Day5/02_PUZZLE_SOLUTION/index.ts:14-16 | a new solution holds the parsed rules and updates and no kept update |
| Day05Pages.Solution.SolvePart1 | solved_work_Day5/02_PUZZLE_SOLUTION/index.ts:101-111 | the sum runs over the valid updates in order, the invalid ones are appended to `invalidUpdates` in order, and rules and updates are unchanged |
| Day05Pages.Targets | solved_work_Day5/02_PUZZLE_SOLUTION/index.ts:59-74 | a page's successor set lists pages of the update, each once |
| Day05Pages.TargetsMeaning | solved_work_Day5/02_PUZZLE_SOLUTION/index.ts:69-74 | `n` is a successor of `p` exactly when some rule `p\|n` has both pages in the update |
| Day05Pages.EdgeDegree | solved_work_Day5/02_PUZZLE_SOLUTION/index.ts:69-74 | a page with an edge into it from a page of the update has a positive in-degree |
| Day05Pages.Adjoin | solved_work_Day5/02_PUZZLE_SOLUTION/index.ts:71 | adding to a set keeps its members and adds the new page |
| Day05Pages.GraphStep | solved_work_Day5/02_PUZZLE_SOLUTION/index.ts:69-73 | an applicable rule adds its `after` page to the successors of its `before` page, and an inapplicable one changes nothing |
| Day05Pages.DegreeStep | solved_work_Day5/02_PUZZLE_SOLUTION/index.ts:69-73 | an applicable rule adds one to the in-degree of its `after` page, and an inapplicable one changes nothing |
| Day05Pages.InitMaps | solved_work_Day5/02_PUZZLE_SOLUTION/index.ts:62-66 | every page of the update starts with no successor and in-degree 0, and no other key is present |
| Day05Pages.BuildGraph | solved_work_Day5/02_PUZZLE_SOLUTION/index.ts:58-74 | after both loops every page of the update maps to exactly its successors by the applicable rules and to the number of applicable rules into it |
| Day05Pages.FindSources | solved_work_Day5/02_PUZZLE_SOLUTION/index.ts:76-82 | the initial queue is the pages of the update with in-degree 0, in update order with repeats |
| Day05Pages.SourcesCount | solved_work_Day5/02_PUZZLE_SOLUTION/index.ts:76-82 | a page is queued at the start as often as the update lists it when its in-degree is 0, and otherwise never |
| Day05Pages.PoppedBound | solved_work_Day5/02_PUZZLE_SOLUTION/index.ts:84-96 | distinct popped pages with an edge into a page account for at most its in-degree from them |
| Day05Pages.AllPredecessorsPopped | solved_work_Day5/02_PUZZLE_SOLUTION/index.ts:84-96 | once the distinct popped pages account for a page's whole in-degree, every page with an edge into it has been popped |
| Day05Pages.PushedBound | solved_work_Day5/02_PUZZLE_SOLUTION/index.ts:84-96 | popped and queued pages together never exceed the update, as a multiset and in number |
| Day05Pages.PopCounted | solved_work_Day5/02_PUZZLE_SOLUTION/index.ts:86-88 | popping the head of the queue leaves every in-degree count consistent, with its successors pending |
| Day05Pages.PopPushed | solved_work_Day5/02_PUZZLE_SOLUTION/index.ts:86-88 | popping moves the head of the queue to the result and queues nothing new |
| Day05Pages.PopOrdered | solved_work_Day5/02_PUZZLE_SOLUTION/index.ts:86-88 | with distinct pages, the popped page comes after every page with an edge into it |
| Day05Pages.VisitCounted | solved_work_Day5/02_PUZZLE_SOLUTION/index.ts:90-95 | visiting a successor lowers its in-degree by one and marks it visited |
| Day05Pages.VisitPushed | solved_work_Day5/02_PUZZLE_SOLUTION/index.ts:90-95 | a successor is queued exactly at the visit where its count falls from 1 to 0, so a page with a positive in-degree is queued at most once |
| Day05Pages.VisitOrdered | solved_work_Day5/02_PUZZLE_SOLUTION/index.ts:90-95 | with distinct pages, a successor whose count reaches 0 has had every page with an edge into it popped |
| Day05Pages.VisitNeighbors | solved_work_Day5/02_PUZZLE_SOLUTION/index.ts:90-95 | the neighbour loop keeps the in-degree, queueing and ordering invariants of Kahn's loop |
| Day05Pages.StartState | solved_work_Day5/02_PUZZLE_SOLUTION/index.ts:76-85 | before the queue loop the in-degrees, the queued sources and the (empty) result satisfy those invariants |
| Day05Pages.Kahn | solved_work_Day5/02_PUZZLE_SOLUTION/index.ts:84-98 | the queue loop ends, returns pages of the update no more often than the update lists them, and with distinct pages puts every page after the pages with an edge into it |
| Day05Pages.SortFromOrdered | solved_work_Day5/02_PUZZLE_SOLUTION/index.ts:57-99 | the loop's ordering invariant gives the rule-ordering of the sort |
| Day05Pages.TopologicalSort | solved_work_Day5/02_PUZZLE_SOLUTION/index.ts:57-99 | the sort returns only pages of the update, no more often than listed and so at most `update.length` of them; with distinct pages each page comes after the `before` page of every applicable rule into it |
| Day05Pages.CompleteSortIsValid | solved_work_Day5/02_PUZZLE_SOLUTION/index.ts:57-99 | with distinct pages, a full-length sort is a re-ordering of the update that breaks no rule |
| Day05Pages.SumCompleteSkips | solved_work_Day5/02_PUZZLE_SOLUTION/index.ts:113-122 | a sort missing a page adds nothing to part 2's sum, so with no complete sort the sum is 0 |
| Day05Pages.Solution.SolvePart2 | solved_work_Day5/02_PUZZLE_SOLUTION/index.ts:113-122 | the sum runs over the kept updates, adding the middle page of each sort whose length equals its update's, each sort satisfying the sort's contract |
| Day05Pages.SolvePt1 | solved_work_Day5/02_PUZZLE_SOLUTION/index.ts:132-141 | a parse failure is caught and gives -1; otherwise the answer is part 1's sum |
| Day05Pages.SolvePt2 | solved_work_Day5/02_PUZZLE_SOLUTION/index.ts:143-153 | a parse failure gives -1; otherwise part 1 runs first and the answer is part 2's sum over the invalid updates for some sorts satisfying the sort's contract |
| Day08Antennas.Antinodes | node_runner/src/solved/index.day8.ts:17-47 | the list is empty exactly when the frequencies differ or the two antennas share a place, and otherwise holds 200 points |
| Day08Antennas.FindAntinodePosition | node_runner/src/solved/index.day8.ts:17-47 | the two 100-step loops build exactly the antinode list of the pair |
| Day08Antennas.StepAt | node_runner/src/solved/index.day8.ts:31-44 | the k-th point of a walk is k whole steps from its start |
| Day08Antennas.AntinodeAt | node_runner/src/solved/index.day8.ts:31-44 | the first 100 points are 0 to 99 steps back from the first antenna, the next 100 are 0 to 99 steps on from the second |
| Day08Antennas.AntinodesOnLine | node_runner/src/solved/index.day8.ts:17-47 | for two distinct same-frequency antennas a point is an antinode exactly when it lies on their line between 99 steps before the first and 100 steps after it; both antennas are antinodes |
| Day08Antennas.AntinodesSymmetric | node_runner/src/solved/index.day8.ts:17-47 | swapping the two antennas gives the same set of antinodes |
| Day08Antennas.RowAntennas | node_runner/src/solved/index.day8.ts:69-77 | every antenna read from a row stands on that row at a cell holding its frequency, which is neither `.` nor a space |
| Day08Antennas.RowMeaning | node_runner/src/solved/index.day8.ts:69-77 | an antenna is read from a row exactly when its cell in that row holds its frequency and that character is neither `.` nor a space |
| Day08Antennas.AntennaMeaning | node_runner/src/solved/index.day8.ts:64-78 | the antennas are exactly the cells of the map whose character is neither `.` nor a space, with that character as frequency |
| Day08Antennas.ParseAntennas | node_runner/src/solved/index.day8.ts:64-78 | the row loop reads the antennas of the map, rows top to bottom |
| Day08Antennas.ScanLine | node_runner/src/solved/index.day8.ts:68-77 | the cell loop appends the antennas of one row, left to right |
| Day08Antennas.FilterMembers | node_runner/src/solved/index.day8.ts:83-89 | a frequency's list holds exactly the antennas of that frequency |
| Day08Antennas.GroupStep | node_runner/src/solved/index.day8.ts:84-89 | adding one antenna keeps the grouping: map keys in first-seen order, each once, each frequency's list its antennas in order |
| Day08Antennas.GroupByFrequency | node_runner/src/solved/index.day8.ts:83-89 | the loop builds one list per frequency present, keys in first-seen order, each list the antennas of that frequency in order |
| Day08Antennas.AddPairAntinodes | node_runner/src/solved/index.day8.ts:98-104 | the set gains exactly the pair's antinodes that lie inside the map |
| Day08Antennas.AddRowAntinodes | node_runner/src/solved/index.day8.ts:96-105 | the set gains the in-map antinodes of the pairs of antenna i with each later antenna of the group |
| Day08Antennas.AddGroupAntinodes | node_runner/src/solved/index.day8.ts:95-106 | the set gains the in-map antinodes of every pair i < j of the group |
| Day08Antennas.CollectAntinodes | node_runner/src/solved/index.day8.ts:91-107 | the set is the union, over the frequency groups, of their in-map pair antinodes |
| Day08Antennas.FilterPairs | node_runner/src/solved/index.day8.ts:83-107 | a pair i < j within a frequency's group is a pair a < b of antennas of that frequency in the whole list, and back |
| Day08Antennas.FreqPointsMeaning | node_runner/src/solved/index.day8.ts:91-107 | a point is collected exactly when it is an in-map antinode of some pair in the group of some frequency |
| Day08Antennas.GroupsCover | node_runner/src/solved/index.day8.ts:83-107 | grouping by frequency neither adds nor loses antinodes: the collected set is that of all same-frequency pairs a < b of the whole list |
| Day08Antennas.CountAntinodes | node_runner/src/solved/index.day8.ts:55-113 | the answer is the number of distinct in-map antinodes of all same-frequency pairs, the map as wide as its first line and as tall as its line count |
| Day08Antennas.SolvePt1 | node_runner/src/solved/index.day8.ts:53-118 | `solve_pt1` returns the number of distinct in-map antinodes; it never reaches its error answer |
| Day08Antennas.SolvePt2 | node_runner/src/solved/index.day8.ts:120-185 | `solve_pt2` returns the same number as `solve_pt1` |
| Day08Antennas.AntinodeMeaning | node_runner/src/solved/index.day8.ts:91-113 | a point is counted exactly when it is inside the map and on the line of two distinct same-frequency antennas a < b, from 99 steps before the first to 100 steps after it |
| Day10Trails.CellHeight | node_runner/src/solved/index.day10.ts:12 | `Number` of one character of a trimmed line is NaN or a height from 0 to 9 |
| Day10Trails.ParseRow | node_runner/src/solved/index.day10.ts:11-13 | a row has one height per character of the trimmed line, each read with `Number` |
| Day10Trails.ParseGrid | node_runner/src/solved/index.day10.ts:10-14 | the map has one row per line of the trimmed input (at least one) and every height is NaN or a digit |
| Day10Trails.RowHeads | node_runner/src/solved/index.day10.ts:26-30 | the height-0 cells of a row, left to right, each inside the first-row width |
| Day10Trails.TrailheadsMeaning | node_runner/src/solved/index.day10.ts:23-33 | the trailheads are exactly the cells of the map at height 0, each once, in row-major order |
| Day10Trails.FindTrailheads | node_runner/src/solved/index.day10.ts:23-33 | the two loops return the trailheads of the map in row-major order |
| Day10Trails.ScanRow | node_runner/src/solved/index.day10.ts:26-30 | the inner loop appends the height-0 cells of one row, as wide as the first row |
| Day10Trails.KeepClimbs | node_runner/src/solved/index.day10.ts:42-45 | the `filter` keeps no more candidates than it is given |
| Day10Trails.Neighbors | node_runner/src/solved/index.day10.ts:35-46 | at most four neighbours are returned |
| Day10Trails.NeighborsMeaning | node_runner/src/solved/index.day10.ts:35-46 | a point is a neighbour exactly when it is on the map, one orthogonal step away and exactly one higher |
| Day10Trails.ReachStep | node_runner/src/solved/index.day10.ts:66-69 | a neighbour of a reachable non-peak cell is reachable |
| Day10Trails.ReachValid | node_runner/src/solved/index.day10.ts:48-73 | every cell reachable from a cell of the map is on the map |
| Day10Trails.ClosedHoldsTrail | node_runner/src/solved/index.day10.ts:48-73 | a set of cells closed under climbing steps holds the end of every trail that starts in it |
| Day10Trails.FindPeaks | node_runner/src/solved/index.day10.ts:48-73 | the search returns exactly the height-9 cells that some climbing trail from the start reaches |
| Day10Trails.PopVisited | node_runner/src/solved/index.day10.ts:53-56 | a cell popped a second time is dropped and the search state is kept |
| Day10Trails.PopPeak | node_runner/src/solved/index.day10.ts:57-64 | a peak popped for the first time is visited and recorded, and the search state is kept |
| Day10Trails.PopFresh | node_runner/src/solved/index.day10.ts:57-59 | any other cell popped for the first time is visited and waits for its neighbours |
| Day10Trails.PushStep | node_runner/src/solved/index.day10.ts:66-69 | pushing the neighbours of a visited non-peak restores the search state |
| Day10Trails.SearchDone | node_runner/src/solved/index.day10.ts:52-72 | when the stack is empty the peaks found are all the reachable peaks |
| Day10Trails.FewerUnvisited | node_runner/src/solved/index.day10.ts:56-57 | visiting a new cell of the map leaves fewer cells unvisited, so the search ends |
| Day10Trails.PushAll | node_runner/src/solved/index.day10.ts:67-69 | the loop pushes the neighbours onto the stack in order |
| Day10Trails.CountUniquePaths | node_runner/src/solved/index.day10.ts:75-97 | the count is 1 at height 9 and otherwise the sum over the neighbours not yet visited; `visited` is the same set after the call as before |
| Day10Trails.CountNeighbors | node_runner/src/solved/index.day10.ts:85-93 | the loop sums the counts of the neighbours not in `visited`, each from its own copy |
| Day10Trails.SumAvoidingStep | node_runner/src/solved/index.day10.ts:88-93 | one more neighbour adds its count when it is not in `visited` |
| Day10Trails.AvoidingIsPaths | node_runner/src/solved/index.day10.ts:75-97 | the `visited` check never skips a trail: from a cell above everything visited, the count is the rating |
| Day10Trails.SumAvoidingIsSum | node_runner/src/solved/index.day10.ts:85-93 | over neighbours above everything visited, the loop's sum is the sum of their ratings |
| Day10Trails.PeaksThroughNeighbors | node_runner/src/solved/index.day10.ts:66-69 | the peaks reached from a non-peak are among those reached from its neighbours |
| Day10Trails.FirstStep | node_runner/src/solved/index.day10.ts:66-69 | a trail to another cell goes on from one of the start's neighbours |
| Day10Trails.PeakAlone | node_runner/src/solved/index.day10.ts:61-64 | no trail goes on from a peak |
| Day10Trails.ScoreAtMostRating | node_runner/src/solved/index.day10.ts:48-97 | a trailhead's score (reachable peaks) never exceeds its rating (distinct trails) |
| Day10Trails.TotalScoreAtMostRating | node_runner/src/solved/index.day10.ts:99-123 | the part 1 total never exceeds the part 2 total |
| Day10Trails.SumScores | node_runner/src/solved/index.day10.ts:103-107 | the loop sums the scores of the trailheads |
| Day10Trails.SumRatings | node_runner/src/solved/index.day10.ts:116-120 | the loop sums the ratings of the trailheads, each counted from an empty `visited` |
| Day10Trails.SolvePt1 | node_runner/src/solved/index.day10.ts:99-110 | `solve_pt1` is the sum over the trailheads of the number of reachable peaks |
| Day10Trails.SolvePt2 | node_runner/src/solved/index.day10.ts:112-123 | `solve_pt2` is the sum over the trailheads of the number of distinct trails to a peak |
| Day13Claw.KeyCount | solved_work_Day13/02_PUZZLE_SOLUTION/index.ts:21-46 | `Object.keys` of the machine being filled in counts at most 3 keys, and 0 exactly for the empty machine |
| Day13Claw.RemoveFirst | solved_work_Day13/02_PUZZLE_SOLUTION/index.ts:30-31 | `replace` with a one-character string removes exactly the first occurrence (one fewer character, same others) and leaves a string without it unchanged |
| Day13Claw.ParseLine | solved_work_Day13/02_PUZZLE_SOLUTION/index.ts:28-31 | a line throws a TypeError exactly when it has no `": "` or its coordinate text has no `", "`; otherwise its type is the text before the first `": "` |
| Day13Claw.Assign | solved_work_Day13/02_PUZZLE_SOLUTION/index.ts:33-43 | a line adds at most one key, and only a `Prize` line touches the prize |
| Day13Claw.Flush | solved_work_Day13/02_PUZZLE_SOLUTION/index.ts:21-48 | the current machine is pushed exactly when it holds three keys |
| Day13Claw.ParseInput | solved_work_Day13/02_PUZZLE_SOLUTION/index.ts:14-51 | the loop over the lines, with the blank-line flush and the type switch, returns exactly the machines of `Parse` (or the first line's TypeError) |
| Day13Claw.MachinesNeedThreeLines | solved_work_Day13/02_PUZZLE_SOLUTION/index.ts:14-51 | every machine parsed used up three lines: at most one machine per three lines |
| Day13Claw.ClassifyKind | solved_work_Day13/02_PUZZLE_SOLUTION/index.ts:28-43 | the type a parsed line reports is the text before its first `": "` |
| Day13Claw.NoPrizeNoMachine | solved_work_Day13/02_PUZZLE_SOLUTION/index.ts:21-46 | input with no `Prize` line parses to no machine |
| Day13Claw.RunAppend | solved_work_Day13/02_PUZZLE_SOLUTION/index.ts:18-44 | reading two runs of lines one after the other is reading the first, then the second from where the first left off |
| Day13Claw.ParseLineOf | solved_work_Day13/02_PUZZLE_SOLUTION/index.ts:19-31 | a line written as `Button A: X+94, Y+34` or `Prize: X=8400, Y=5400` is already trimmed and parses back to its type and both coordinates |
| Day13Claw.ClassifyBlock | solved_work_Day13/02_PUZZLE_SOLUTION/index.ts:18-44 | the three lines of a machine and a blank line read as its three keys and a flush |
| Day13Claw.RunBlock | solved_work_Day13/02_PUZZLE_SOLUTION/index.ts:18-44 | a block read from an empty machine appends that machine and leaves an empty one |
| Day13Claw.RunChunks | solved_work_Day13/02_PUZZLE_SOLUTION/index.ts:18-44 | blocks that each read one machine read all their machines, in order |
| Day13Claw.ParseBlocks | solved_work_Day13/02_PUZZLE_SOLUTION/index.ts:14-51 | round trip: the puzzle's block format written from any machines with non-negative coordinates parses back to exactly those machines |
| Day13Claw.FindMinimumTokens | solved_work_Day13/02_PUZZLE_SOLUTION/index.ts:53-74 | the two loops over 0..100 presses return the search result `Cheapest`, and `solvable` is set exactly when a hit was found |
| Day13Claw.UpdateStep | solved_work_Day13/02_PUZZLE_SOLUTION/index.ts:60-69 | one inner iteration keeps `minTokens` the fewest tokens over the hits scanned so far, or Infinity when none |
| Day13Claw.RowBestMeaning | solved_work_Day13/02_PUZZLE_SOLUTION/index.ts:59-70 | after a row of the inner loop the best so far covers every press count of that row |
| Day13Claw.GridBestMeaning | solved_work_Day13/02_PUZZLE_SOLUTION/index.ts:58-71 | after n rows the best so far covers every press count with a < n |
| Day13Claw.CheapestMeaning | solved_work_Day13/02_PUZZLE_SOLUTION/index.ts:53-74 | the result is null exactly when no press counts in [0, 100]² land on the prize; otherwise it is the fewest tokens 3a + b over all such counts, attained by one of them, and at most 400 |
| Day13Claw.NaNUnsolvable | solved_work_Day13/02_PUZZLE_SOLUTION/index.ts:60-63 | a machine with a NaN coordinate is never won |
| Day13Claw.FindMinimumTokensWithBigInt | solved_work_Day13/02_PUZZLE_SOLUTION/index.ts:76-106 | `BigInt` of a NaN coordinate throws a RangeError; otherwise the same result as the Number search |
| Day13Claw.TotalTokensBound | solved_work_Day13/02_PUZZLE_SOLUTION/index.ts:118-132 | the part 1 total is at most 400 tokens per machine |
| Day13Claw.SolvePt1 | solved_work_Day13/02_PUZZLE_SOLUTION/index.ts:108-140 | a parse error is passed on; otherwise the answer is the tokens summed over the machines that can be won |
| Day13Claw.Far | solved_work_Day13/02_PUZZLE_SOLUTION/index.ts:156-163 | the part 2 machine keeps both buttons and moves the prize by 10^13, and is defined exactly when the original is |
| Day13Claw.SolvePt2 | solved_work_Day13/02_PUZZLE_SOLUTION/index.ts:142-184 | a parse error is passed on, a NaN coordinate gives the RangeError, and otherwise the answer is the tokens summed over the moved machines that can be won |
| Day13Claw.FarUnreachable | solved_work_Day13/02_PUZZLE_SOLUTION/index.ts:150-176 | with x offsets below 5·10^10 and a non-negative prize x, no press counts up to 100 reach a prize moved 10^13 away |
| Day13Claw.FarTotalZero | solved_work_Day13/02_PUZZLE_SOLUTION/index.ts:150-179 | on such machines part 2 totals 0 |
| Day12Garden.Cell | node_runner/src/solved/index.day12.ts:85-98 | a grid read is defined exactly on the plots of the (possibly ragged) grid |
| Day12Garden.PushesMeaning | node_runner/src/solved/index.day12.ts:89-101 | the neighbour scan queues exactly the unvisited plots of the region's type adjacent to the popped plot and inside the first row's width and the grid's height |
| Day12Garden.PushNeighbours | node_runner/src/solved/index.day12.ts:90-101 | the loop over the four directions appends exactly those plots, in the order left, right, up, down |
| Day12Garden.SkipStep | node_runner/src/solved/index.day12.ts:81-85 | popping a plot already visited leaves the fill's invariant intact |
| Day12Garden.TakeStep | node_runner/src/solved/index.day12.ts:81-101 | taking an unvisited plot keeps the taken plots distinct, of one type and connected, and keeps every same-type neighbour visited or queued |
| Day12Garden.FloodFill | node_runner/src/solved/index.day12.ts:77-103 | the queue loop grows a non-empty region from its start plot: one type, no plot twice, connected, closed under same-type neighbours inside the box, and disjoint from what was visited before |
| Day12Garden.FillDone | node_runner/src/solved/index.day12.ts:81-103 | when the queue runs dry the plots taken form a region |
| Day12Garden.FillClosed | node_runner/src/solved/index.day12.ts:81-103 | when the queue runs dry the visited set is closed under same-type neighbours inside the box |
| Day12Garden.AddRegion | node_runner/src/solved/index.day12.ts:104-107 | appending the filled region keeps the regions disjoint and covering exactly the visited plots |
| Day12Garden.FindRegions | node_runner/src/solved/index.day12.ts:69-113 | the regions partition the plots: every plot is in exactly one region, and each region is non-empty, of one type, connected and closed |
| Day12Garden.CalculatePerimeter | node_runner/src/solved/index.day12.ts:115-128 | the loop returns the perimeter: for every plot, one for each side on the grid's edge or facing a plot outside the region |
| Day12Garden.PerimeterBound | node_runner/src/solved/index.day12.ts:115-128 | a region's perimeter is at most 4 per plot |
| Day12Garden.ExposedIsOutside | node_runner/src/solved/index.day12.ts:121-124 | for a region inside the grid the edge tests are redundant: a plot's fenced sides are exactly its neighbours outside the region |
| Day12Garden.LonePlotPerimeter | node_runner/src/solved/index.day12.ts:121-124 | a single-plot region has perimeter 4 |
| Day12Garden.DominoPerimeter | node_runner/src/solved/index.day12.ts:121-124 | two side-by-side plots inside the grid have perimeter 6 |
| Day12Garden.PlotCorners | node_runner/src/solved/index.day12.ts:31-62 | the two loops for one plot count one corner per clockwise direction pair with both neighbours outside, plus one per pair with both inside and the diagonal plot outside |
| Day12Garden.CountSides | node_runner/src/solved/index.day12.ts:13-67 | the corners summed over the region's plots |
| Day12Garden.SidesBound | node_runner/src/solved/index.day12.ts:36-62 | at most 4 corners per plot, since a direction pair cannot be both an exterior corner and an elbow |
| Day12Garden.LonePlotSides | node_runner/src/solved/index.day12.ts:31-62 | a single-plot region has 4 sides |
| Day12Garden.DominoSides | node_runner/src/solved/index.day12.ts:31-62 | two side-by-side plots have 4 sides |
| Day12Garden.ElbowSides | node_runner/src/solved/index.day12.ts:46-62 | an L of three plots has 6 sides, two of them found as elbows |
| Day12Garden.MeasureFence | node_runner/src/solved/index.day12.ts:139-158 | the fence of a region is its perimeter in part 1 and its side count in part 2 |
| Day12Garden.TotalPrice | node_runner/src/solved/index.day12.ts:137-169 | the `forEach` loop sums area times fence over the regions |
| Day12Garden.CostBound | node_runner/src/solved/index.day12.ts:138-140 | a region costs at most 4·area² |
| Day12Garden.PriceBound | node_runner/src/solved/index.day12.ts:130-145 | the total price is at most 4 times the sum of the squared areas |
| Day12Garden.SolvePt1 | node_runner/src/solved/index.day12.ts:130-145 | the answer is the sum of area·perimeter over a partition of the grid into regions |
| Day12Garden.SolvePt2 | node_runner/src/solved/index.day12.ts:147-172 | the answer is the sum of area·sides over a partition of the grid into regions |
| Day12Garden.StubPriceZero | solved_work_Day12/02_PUZZLE_SOLUTION/index.ts:13-15 | with the stub `countSides` every region costs 0 |
| Day12Garden.SolvePt2Stub | solved_work_Day12/02_PUZZLE_SOLUTION/index.ts:95-120 | with the stub `countSides`, `solve_pt2` always returns 0 |
| Day18Bytes.StepDistance | node_runner/src/solved/index.day18.ts:36 | each of the four movements moves exactly one cell in Manhattan distance |
| Day18Bytes.StepsDiffer | node_runner/src/solved/index.day18.ts:36 | the four movements lead to four different cells |
| Day18Bytes.CreateGrid | node_runner/src/solved/index.day18.ts:26-28 | a fresh size by size grid that shows no corrupted cell |
| Day18Bytes.BoardOf | node_runner/src/solved/index.day18.ts:30-32 | the open cells the search sees are exactly the cells `isValidMove` accepts: inside `[0, grid.length)` in both coordinates and holding `.` |
| Day18Bytes.Walled | node_runner/src/solved/index.day18.ts:26-28 | an n by n grid with a set of corrupted cells is open exactly on the in-range cells that are not corrupted |
| Day18Bytes.ShownBoard | node_runner/src/solved/index.day18.ts:30-32 | a grid holding `#` exactly on a set of walls is searched as the walled board of its size |
| Day18Bytes.ReachMono | node_runner/src/solved/index.day18.ts:35-67 | a cell reachable in k steps is reachable in any larger budget |
| Day18Bytes.ReachFar | node_runner/src/solved/index.day18.ts:35-67 | no cell is reached in fewer steps than its Manhattan distance from the corner |
| Day18Bytes.ClearGridShortest | node_runner/src/solved/index.day18.ts:35-67 | on an uncorrupted n by n grid the shortest path to the far corner is 2(n-1) steps |
| Day18Bytes.WallsBlock | node_runner/src/solved/index.day18.ts:35-67 | corrupting more cells never makes a cell reachable that was not reachable before |
| Day18Bytes.Pushes | node_runner/src/solved/index.day18.ts:51-62 | the items one turn of the movement loop appends are at most four, each one step further, open and not yet visited |
| Day18Bytes.PushedFrom | node_runner/src/solved/index.day18.ts:51-62 | every appended cell is a neighbour in the scan order that was open and unvisited |
| Day18Bytes.PushedAll | node_runner/src/solved/index.day18.ts:51-62 | every open, unvisited neighbour is appended |
| Day18Bytes.PushesDistinct | node_runner/src/solved/index.day18.ts:56-57 | the same turn never appends a cell twice, because each cell is marked visited as it is appended |
| Day18Bytes.Expand | node_runner/src/solved/index.day18.ts:51-63 | the movement loop appends exactly the turn's pushes to the queue and adds their cells to the visited set |
| Day18Bytes.FindShortestPath | node_runner/src/solved/index.day18.ts:35-67 | a result of at least 0 is the length of a shortest walk from the corner to the far corner through open cells; -1 means no such walk exists; no cell is enqueued twice and every enqueued cell is the corner or open |
| Day18Bytes.SearchFails | node_runner/src/solved/index.day18.ts:43-66 | when the queue runs dry before the target is dequeued the target is unreachable |
| Day18Bytes.FoundTarget | node_runner/src/solved/index.day18.ts:47-49 | the steps of the first dequeued item at the target are the shortest distance |
| Day18Bytes.PathExists | node_runner/src/solved/index.day18.ts:70-72 | true exactly when the far corner can be reached |
| Day18Bytes.MarksIndex | node_runner/src/solved/index.day18.ts:85-86 | the mark of each line is what its coordinates and the `x < GRID_SIZE && y < GRID_SIZE` guard decide |
| Day18Bytes.MarkingRange | node_runner/src/solved/index.day18.ts:85-87 | a line that does not throw marks only a cell with both coordinates below the grid size and a non-negative row |
| Day18Bytes.WallsMarked | node_runner/src/solved/index.day18.ts:84-89 | a cell is corrupted exactly when some line marks it with a non-negative column |
| Day18Bytes.WallsInside | node_runner/src/solved/index.day18.ts:86-87 | every corrupted cell lies on the grid |
| Day18Bytes.WallsGrow | node_runner/src/solved/index.day18.ts:107-110 | reading more lines only adds corrupted cells |
| Day18Bytes.StaysBlocked | node_runner/src/solved/index.day18.ts:107-117 | once no path remains, no later byte reopens one |
| Day18Bytes.Corrupt | node_runner/src/solved/index.day18.ts:87 | the write adds the cell to the walls the grid shows and changes nothing else |
| Day18Bytes.Fall | node_runner/src/solved/index.day18.ts:108-111 | reading a line that does not throw leaves the grid showing the walls of all lines up to it |
| Day18Bytes.SolvePt1 | node_runner/src/solved/index.day18.ts:74-98 | after the first `min(BYTES_TO_PROCESS, lines.length)` lines fall, the answer is -1 exactly when one of them throws, otherwise the shortest distance on the corrupted grid or "No path exists" when there is none |
| Day18Bytes.NumberTextRead | node_runner/src/solved/index.day18.ts:115 | the decimal text of an integer reads back through `Number` as that integer and holds no comma |
| Day18Bytes.CoordTextRead | node_runner/src/solved/index.day18.ts:115 | the answer text `x,y` splits and reads back as the coordinates x and y |
| Day18Bytes.AnswerMarks | node_runner/src/solved/index.day18.ts:108-115 | the answer of part 2, read as an input line, marks the very cell that cut the path |
| Day18Bytes.SurvivedBefore | node_runner/src/solved/index.day18.ts:107-118 | the loop only passes lines that do not throw and after which the path, if they marked a cell, is still open |
| Day18Bytes.SolvePt2 | node_runner/src/solved/index.day18.ts:100-126 | every line before the stop survives; at the stop the answer is the `x,y` of the byte that cut the last path or "Error processing input" for a throw; with no stop it is "All bytes processed, path still exists" |
| Day16Moves.TurnsUndo | node_runner/src/solved/index.day16.ts:141-161 | a left turn `(d + 3) % 4` and a right turn `(d + 1) % 4` undo each other, both change the facing and differ from each other, two of either face back, and a step after a U-turn returns to the cell left |
| Day16Moves.Move | node_runner/src/solved/index.day16.ts:108-139 | at most one item, present exactly when the cell ahead is inside the first row's width and the row count and not `#`; it stands on that cell with the same facing, one point dearer, its path grown by that cell alone |
| Day16Moves.GetRotations | node_runner/src/solved/index.day16.ts:141-161 | exactly two distinct items on the same cell with the same path, each 1000 dearer, the first facing `(d + 3) % 4` and the second `(d + 1) % 4` |
| Day16Moves.SuccessorKinds | node_runner/src/solved/index.day16.ts:284-290 | every item pushed for an item is a step forward onto an open cell costing 1 or a quarter turn in place costing 1000, so always dearer |
| Day16Moves.PossiblyImpliesStill | solved_work_Day16/02_PUZZLE_SOLUTION/index.ts:21-51 | every position `canPossiblyReachEnd` keeps, the corrected test keeps too |
| Day16Moves.BoundStep | solved_work_Day16/02_PUZZLE_SOLUTION/index.ts:25-50 | one step or turn lowers the least remaining cost (Manhattan distance plus 1000 per needed turn) by at most what it costs |
| Day16Moves.ChainBound | solved_work_Day16/02_PUZZLE_SOLUTION/index.ts:25-50 | every walk that ends on the end cell pays at least the least remaining cost from where it starts |
| Day16Moves.StillReachSound | solved_work_Day16/02_PUZZLE_SOLUTION/index.ts:131-139 | the corrected test never prunes a position from which a walk reaches the end within the target score |
| Day16Moves.PossiblyPrunesReachable | solved_work_Day16/02_PUZZLE_SOLUTION/index.ts:21-51 | at (5,5) facing East with the end at (3,3) and 2004 points left, `canPossiblyReachEnd` answers false, yet a walk (turn, two steps, turn, two steps) reaches the end at exactly 2004 |
| Day16Moves.FindStartEnd | node_runner/src/solved/index.day16.ts:236-245 | the start is the last `S` and the end the last `E` in row-major order, (0,0) when there is none |
| Day16Moves.LastSeenFound | node_runner/src/solved/index.day16.ts:236-245 | when the grid holds an `S` the scan's start holds one; when it holds none the start is (0,0) (likewise for `E`) |
| Day16Moves.LastSeenUnique | node_runner/src/solved/index.day16.ts:301-310 | the scan's answer is determined by the grid, so the scans of `solve` and `solve_pt2` find the same start and end |
| Day16Moves.Rows | node_runner/src/solved/index.day16.ts:232 | `input.split('\n')` has at least one row and joins back into the input |
| Day16Solve.NextPrev | node_runner/src/solved/index.day16.ts:108-161 | each step forward, left turn and right turn has an inverse: the state before a step is determined by the state after it |
| Day16Solve.SuccessorStep | node_runner/src/solved/index.day16.ts:284-290 | each item pushed for an item is one allowed step from its cell and facing, at the score plus that step's weight |
| Day16Solve.StepSuccessor | node_runner/src/solved/index.day16.ts:284-290 | every allowed step from an expanded item is pushed at the score plus its weight |
| Day16Solve.ReachNext | node_runner/src/solved/index.day16.ts:284-290 | an allowed step from a state reached off the end cell reaches the next state at the added weight |
| Day16Solve.SearchStarts | node_runner/src/solved/index.day16.ts:247-261 | the queue holding only the start item facing East at score 0, with nothing visited and the best score at `MAX_SAFE_INTEGER`, meets the loop invariant |
| Day16Solve.TurnAtEnd | node_runner/src/solved/index.day16.ts:268-273 | taking the cheapest item on the end cell and lowering the best score to its score when lower keeps the loop invariant |
| Day16Solve.TurnSkipped | node_runner/src/solved/index.day16.ts:275-281 | dropping the cheapest item when its state was visited at a score no higher keeps the loop invariant |
| Day16Solve.TurnExpands | node_runner/src/solved/index.day16.ts:282-290 | recording the cheapest item's state at its score and pushing its successors keeps the loop invariant, and the state was not visited before |
| Day16Solve.AllHandled | node_runner/src/solved/index.day16.ts:263-291 | once the queue is empty, every state reached at any score was visited at a score no higher, or is on the end cell with the best score no higher |
| Day16Solve.SearchDone | node_runner/src/solved/index.day16.ts:263-293 | once the queue is empty, the best score is the least score of any walk to the end cell, or `MAX_SAFE_INTEGER` when none exists |
| Day16Solve.CheapestIndex | node_runner/src/solved/index.day16.ts:265-266 | the item the stable sort and `shift` take: one of least score, with every earlier item strictly dearer |
| Day16Solve.Turn | node_runner/src/solved/index.day16.ts:263-291 | one turn of the loop keeps its invariant and either visits one more state of the finite space or shortens the queue |
| Day16Solve.Search | node_runner/src/solved/index.day16.ts:247-293 | the search returns the least score of any walk from the start facing East to the end cell, or `MAX_SAFE_INTEGER` when none exists |
| Day16Solve.Solve | node_runner/src/solved/index.day16.ts:231-294 | with the start and end found by the scan, the answer is the least score of any walk to the end in any facing, or `MAX_SAFE_INTEGER` |
| Day16Paths.Behind | node_runner/src/solved/index.day16.ts:62-71 | the cell the backwards search steps to is the one from which a step forward in that facing lands on the current cell |
| Day16Paths.ToEndBack | node_runner/src/solved/index.day16.ts:73-89 | stepping back onto an open cell prices it, in that facing, by the cost through the current state: one step plus 1000 when the facing changes |
| Day16Paths.SeedEnd | node_runner/src/solved/index.day16.ts:35-54 | all four facings on the end cell are queued and priced 0, and the loop invariant holds |
| Day16Paths.StepBack | node_runner/src/solved/index.day16.ts:64-101 | an entry is lowered and its item queued exactly when the cell behind is open and the new score beats the entry (`Infinity` when absent) |
| Day16Paths.StepEntries | node_runner/src/solved/index.day16.ts:91-100 | every entry stays the cost of a walk to the end and within 1001 of the popped score, and entries only go down |
| Day16Paths.StepQueue | node_runner/src/solved/index.day16.ts:91-100 | every queued item stays the cost of a walk to the end, no cheaper than the popped item and no cheaper than its entry |
| Day16Paths.StepPending | node_runner/src/solved/index.day16.ts:61-102 | every entry stays relaxed or queued at its price, and the popped state gains one more relaxed facing |
| Day16Paths.StepLoose | node_runner/src/solved/index.day16.ts:91-100 | a step that lowers an existing entry takes it out of the entries a later pop could still lower |
| Day16Paths.RelaxStarts | node_runner/src/solved/index.day16.ts:57-58 | taking the cheapest item leaves every entry relaxed or still queued, and a popped item dearer than its entry has a relaxed state |
| Day16Paths.RelaxDone | node_runner/src/solved/index.day16.ts:61-102 | after all four facings the loop invariant holds again |
| Day16Paths.Relax | node_runner/src/solved/index.day16.ts:56-103 | one pop keeps the loop invariant, only lowers entries, and sets a new entry, or empties a loose one, or shortens the queue |
| Day16Paths.PopDecreases | node_runner/src/solved/index.day16.ts:56-103 | the loop's measure (unset entries, loose entries, queue length) decreases with every pop |
| Day16Paths.PricedBelow | node_runner/src/solved/index.day16.ts:56-103 | with every entry relaxed, no walk to the end from a state is cheaper than its entry |
| Day16Paths.OptimalScoreMap | node_runner/src/solved/index.day16.ts:30-106 | every facing on the end cell is priced 0, every price is the cost of a walk to the end, and no walk to the end is cheaper than the price of its state |
| Day16Paths.ChainRises | node_runner/src/solved/index.day16.ts:214-225 | scores rise strictly along a walk |
| Day16Paths.WalkExtend | node_runner/src/solved/index.day16.ts:219-225 | a walk extended by any pushed successor is a walk |
| Day16Paths.WalkTiles | node_runner/src/solved/index.day16.ts:127-128 | the path an item carries is exactly the set of cells of the walk that led to it |
| Day16Paths.SuccessorPath | node_runner/src/solved/index.day16.ts:127-158 | a pushed successor's path is its parent's path plus its own cell |
| Day16Paths.PushesWeighLess | node_runner/src/solved/index.day16.ts:214-225 | expanding an item below the target replaces its weight in the measure by less |
| Day16Paths.CollectStarts | node_runner/src/solved/index.day16.ts:170-179 | the queue holding only the start item, with nothing collected, meets the loop invariant |
| Day16Paths.CollectAtEnd | node_runner/src/solved/index.day16.ts:208-212 | collecting the path of an item on the end cell at the target score keeps the loop invariant |
| Day16Paths.CollectSkipped | node_runner/src/solved/index.day16.ts:214-217 | dropping an item at or above the target score keeps the loop invariant |
| Day16Paths.CollectExpands | node_runner/src/solved/index.day16.ts:219-225 | pushing the successors of an item below the target keeps the loop invariant |
| Day16Paths.Collect | node_runner/src/solved/index.day16.ts:181-226 | one turn of the loop keeps its invariant and lowers the measure |
| Day16Paths.CollectDone | node_runner/src/solved/index.day16.ts:181-228 | once the queue is empty, the collected tiles are exactly those on walks reaching the end at the target score |
| Day16Paths.FindAllOptimalPaths | node_runner/src/solved/index.day16.ts:163-229 | a tile is collected exactly when it lies on a walk from the start facing East that stands on the end cell at exactly the target score |
| Day16Paths.ReachWalk | node_runner/src/solved/index.day16.ts:312-315 | every state `solve` reaches at a score ends a walk from the start item at that score |
| Day16Paths.SolvePt2 | node_runner/src/solved/index.day16.ts:296-317 | the answer counts the tiles on walks reaching the end at the cheapest score, and both start and end are among them when the end is reachable |
| Day20Race.Add | node_runner/src/solved/index.day20.ts:172 | a sum is Infinity exactly when either term is; otherwise the whole-number sum |
| Day20Race.Sub | node_runner/src/solved/index.day20.ts:215 | Infinity minus a length stays Infinity; otherwise the whole-number difference |
| Day20Race.StepsDiffer | node_runner/src/solved/index.day20.ts:14-19 | the four directions lead to four different cells |
| Day20Race.ReachJoin | node_runner/src/solved/index.day20.ts:41-71 | a walk from a to b followed by a walk from b to c is a walk from a to c of the summed length |
| Day20Race.ShortestWithin | node_runner/src/solved/index.day20.ts:41-71 | a cell reachable in k steps has a shortest walk of at most k steps |
| Day20Race.Distance | node_runner/src/solved/index.day20.ts:41-71 | the reference definition of the answer: the length of a shortest walk over non-wall cells, or Infinity when no walk exists |
| Day20Race.DistanceIs | node_runner/src/solved/index.day20.ts:41-71 | the distance is unique: any value meeting its definition is it |
| Day20Race.DistanceJoin | node_runner/src/solved/index.day20.ts:41-71 | the distance obeys the triangle inequality |
| Day20Race.Space | node_runner/src/solved/index.day20.ts:59-62 | the finite set of cells a search can visit: the start and every in-bounds non-wall cell |
| Day20Race.Fresh | node_runner/src/solved/index.day20.ts:53-68 | the neighbours a search cell enqueues are in bounds, not walls, and not yet visited |
| Day20Race.ExpandSteps | node_runner/src/solved/index.day20.ts:53-68 | the direction loop appends exactly the fresh passable neighbours, one step further, to the queue and marks them visited |
| Day20Race.SearchStep | node_runner/src/solved/index.day20.ts:47-69 | dequeuing a cell other than the target and expanding it keeps the breadth-first invariant: queued steps are true distances in non-decreasing order, and every cell closer than the queue's front has been visited |
| Day20Race.FoundTarget | node_runner/src/solved/index.day20.ts:50-52 | when the target is dequeued, its steps are its distance |
| Day20Race.Exhausted | node_runner/src/solved/index.day20.ts:47-70 | once every dequeued cell has had its neighbours visited, every cell reachable from the start has been dequeued; so an emptied queue without the target means Infinity is its distance |
| Day20Race.FindShortestPath | node_runner/src/solved/index.day20.ts:41-71 | the breadth-first search returns exactly the shortest-walk distance, and Infinity exactly when the target cannot be reached |
| Day20Race.ExpandReach | node_runner/src/solved/index.day20.ts:81-96 | the direction loop adds exactly the fresh passable neighbours to the reachable set and the queue |
| Day20Race.FloodStep | node_runner/src/solved/index.day20.ts:79-97 | expanding one dequeued cell keeps the flood invariant: every reached cell is connected, and every neighbour of an expanded cell is reached |
| Day20Race.FindHonestlyReachablePositions | node_runner/src/solved/index.day20.ts:73-100 | a cell is in the result iff a walk over non-wall cells joins it to the start (so the start is always in) |
| Day20Cheats.LastFoundSeen | node_runner/src/solved/index.day20.ts:32-37 | the row-major scan's current answer is the last cell scanned so far that holds the letter, or (0, 0) when none does |
| Day20Cheats.FindStartEnd | node_runner/src/solved/index.day20.ts:28-39 | S and E are the last cells in row-major order holding those letters within the first row's width, each (0, 0) when absent |
| Day20Cheats.LastSeenFound | node_runner/src/solved/index.day20.ts:28-39 | the answer holds the letter when some scanned cell does, and is (0, 0) otherwise |
| Day20Cheats.OffsetStep | node_runner/src/solved/index.day20.ts:105-124 | one offset of the inner loop lists the cell exactly when it is an in-bounds non-wall cell 1 to 20 steps away, keeping the list in row-major order |
| Day20Cheats.FindPotentialCheatEndpoints | node_runner/src/solved/index.day20.ts:102-128 | the list holds every in-bounds non-wall cell at Manhattan distance 1 to 20, and nothing else, each once in row-major order, with that distance as its length |
| Day20Cheats.DistanceCache.Get | node_runner/src/solved/index.day20.ts:134-141 | the cached lookup returns exactly what the search would, keeps every cached entry correct, and caches the pair |
| Day20Cheats.GainIs | node_runner/src/solved/index.day20.ts:167-174 | the loop's two tests (goal reachable from the cheat's end, total below the baseline) hold exactly when the cheat gains |
| Day20Cheats.KeptStep | node_runner/src/solved/index.day20.ts:174-180 | recording one more endpoint keeps the cheats recorded so far plus exactly the gaining ones, each with its Manhattan length |
| Day20Cheats.TryCheats | node_runner/src/solved/index.day20.ts:155-181 | the endpoint loop adds exactly the gaining cheats from one start, keeps the earlier ones, and leaves the cache correct |
| Day20Cheats.FindAllValidPaths | node_runner/src/solved/index.day20.ts:130-186 | a pair is recorded iff its start is honestly reachable, its end is an endpoint of it, the goal is reachable from the end, and the race through the cheat is shorter than the honest race; each is recorded with its length |
| Day20Cheats.SavingsOf | node_runner/src/solved/index.day20.ts:210-216 | each cheat's saving is the honest distance between its ends minus its length |
| Day20Cheats.SaversOf | node_runner/src/solved/index.day20.ts:222-237 | the cheats whose saving reaches 100 are the same whether read from the savings map or from the cheats |
| Day20Cheats.TallySavings | node_runner/src/solved/index.day20.ts:200-220 | the tally maps each positive saving to the number of cheats with exactly that saving, and has no other key |
| Day20Cheats.SumAll | node_runner/src/solved/index.day20.ts:222-237 | the cheats counted under tally keys of at least 100 are exactly the cheats saving at least 100 |
| Day20Cheats.SumAtLeast100 | node_runner/src/solved/index.day20.ts:222-237 | the sorted, filtered and reduced tally counts exactly the cheats saving at least 100 |
| Day20Cheats.CheatSaves | node_runner/src/solved/index.day20.ts:174-216 | every recorded cheat has a positive saving, and the saving is at least the race's total gain, so the `savings > 0` filter never drops one |
| Day20Cheats.SolvePt2 | node_runner/src/solved/index.day20.ts:188-242 | over the trimmed grid, the answer is the number of recorded cheats whose saving reaches 100 |
| Day20Cheats.SolvePt1 | node_runner/src/solved/index.day20.ts:244-246 | part 1 is switched off and answers 0 |
| Day20Estimate.IsValidPosition | solved_work_Day20/02_PUZZLE_SOLUTION/index.ts:23-28 | holds iff the cell is in the grid, within the first row's width, and is '.', 'S' or 'E' |
| Day20Estimate.CalculatePathSavings | solved_work_Day20/02_PUZZLE_SOLUTION/index.ts:30-35 | the saving plus the Manhattan length of the cheat is 84, so it never exceeds 84 |
| Day20Estimate.CandidateDistance | solved_work_Day20/02_PUZZLE_SOLUTION/index.ts:52-55 | two moves end on the start cell (exactly when they cancel) or two steps from it |
| Day20Estimate.NoneQualify | solved_work_Day20/02_PUZZLE_SOLUTION/index.ts:65-72 | no pair of track cells two moves apart saves 100 or more |
| Day20Estimate.SolvePt1 | solved_work_Day20/02_PUZZLE_SOLUTION/index.ts:37-85 | the kept cheats are exactly the qualifying pairs and the answer counts them, so the answer is 0 |
| Day20Estimate.SolvePt2 | solved_work_Day20/02_PUZZLE_SOLUTION/index.ts:87-89 | always 0 |
| Day04Search.CreateGrid | solved_work_Day4/02_PUZZLE_SOLUTION/index.ts:4-6 | the trimmed input split into lines; there is always at least one row |
| Day04Search.CheckXmas | solved_work_Day4/02_PUZZLE_SOLUTION/index.ts:20-33 | true iff the four cells from (row, col) along the direction lie within the rows and the first row's width, exist, and spell "XMAS" |
| Day04Search.CellVerdict | solved_work_Day4/02_PUZZLE_SOLUTION/index.ts:42-47 | the direction loop at an 'X' finds a match iff some direction spells "XMAS" from it |
| Day04Search.CountXmasStarts | solved_work_Day4/02_PUZZLE_SOLUTION/index.ts:39-50 | the scan counts exactly the 'X' cells from which at least one direction spells "XMAS" |
| Day04Search.SolvePt1 | solved_work_Day4/02_PUZZLE_SOLUTION/index.ts:35-53 | because of the `break`, part 1 is the number of 'X' cells with at least one match, not the number of matches |
| Day04Search.XmasStartsBound | solved_work_Day4/02_PUZZLE_SOLUTION/index.ts:35-53 | part 1's answer never exceeds the number of 'X' cells |
| Day04Search.CellStep | solved_work_Day4/02_PUZZLE_SOLUTION/index.ts:39-50 | scanning one more cell adds it to the counted set exactly when it qualifies, so the count grows by one or stays |
| Day04Search.LetterTurn | solved_work_Day4/02_PUZZLE_SOLUTION/index.ts:65-71 | step i of the loop appends the text of the cell i steps along the direction |
| Day04Search.ThreeLetters | solved_work_Day4/02_PUZZLE_SOLUTION/index.ts:63-73 | the sequence is the cells at steps -1, 0 and 1 in that order; a cell outside the rows or the first row's width adds nothing, and one past a shorter row adds the text "undefined" |
| Day04Search.EdgeShort | solved_work_Day4/02_PUZZLE_SOLUTION/index.ts:68-70 | when the cell one step back lies outside the grid and the cells inside are letters, the sequence is shorter than three letters |
| Day04Search.XShapedIff | solved_work_Day4/02_PUZZLE_SOLUTION/index.ts:75-84 | both diagonals read "MAS" or "SAM" iff the cell is an 'A' off the border whose two diagonals each join an 'M' and an 'S' |
| Day04Search.CheckXShapedMas | solved_work_Day4/02_PUZZLE_SOLUTION/index.ts:75-84 | true iff both diagonal sequences are "MAS" or "SAM" |
| Day04Search.CountCrosses | solved_work_Day4/02_PUZZLE_SOLUTION/index.ts:90-98 | the scan counts exactly the 'A' cells at the centre of an X of "MAS" |
| Day04Search.SolvePt2 | solved_work_Day4/02_PUZZLE_SOLUTION/index.ts:86-101 | part 2 is the number of X-shaped "MAS" crossings |
| Day04Square.Strip | solved_work_Day4/02_PUZZLE_SOLUTION/index_pt1_success.ts:35 | no whitespace is left and nothing is added |
| Day04Square.StripKeeps | solved_work_Day4/02_PUZZLE_SOLUTION/index_pt1_success.ts:35 | text without whitespace is unchanged |
| Day04Square.NonBlankStrips | solved_work_Day4/02_PUZZLE_SOLUTION/index_pt1_success.ts:35-86 | a line that is not blank keeps at least one character |
| Day04Square.Root | solved_work_Day4/02_PUZZLE_SOLUTION/index_pt1_success.ts:36-42 | the exact integer square root when the length is a perfect square, and none iff it is not |
| Day04Square.Rows | solved_work_Day4/02_PUZZLE_SOLUTION/index_pt1_success.ts:47-49 | side rows, each of side characters |
| Day04Square.SquareGrid | solved_work_Day4/02_PUZZLE_SOLUTION/index_pt1_success.ts:33-54 | no grid iff the stripped length is not a perfect square; an error iff nothing is left; otherwise a square grid of side the root |
| Day04Square.RowsJoin | solved_work_Day4/02_PUZZLE_SOLUTION/index_pt1_success.ts:47-49 | the first k rows concatenate to the first k·side characters |
| Day04Square.SquareGridJoin | solved_work_Day4/02_PUZZLE_SOLUTION/index_pt1_success.ts:33-54 | the rows of a returned grid concatenate back to the input without its whitespace |
| Day04Square.CreateGrid | solved_work_Day4/02_PUZZLE_SOLUTION/index_pt1_success.ts:33-54 | the row loop fills exactly the rows of the square, in order |
| Day04Square.DirectionsDistinct | solved_work_Day4/02_PUZZLE_SOLUTION/index_pt1_success.ts:5-14 | the eight directions are distinct non-zero steps of at most one row and one column |
| Day04Square.CheckXmas | solved_work_Day4/02_PUZZLE_SOLUTION/index_pt1_success.ts:57-76 | true iff the four cells along the direction lie in the square of side grid.length and spell "XMAS" |
| Day04Square.Hits | solved_work_Day4/02_PUZZLE_SOLUTION/index_pt1_success.ts:99-103 | the number of the first k directions that match is at most k |
| Day04Square.CellCount | solved_work_Day4/02_PUZZLE_SOLUTION/index_pt1_success.ts:98-104 | a cell adds at most 8, and nothing unless it is an 'X' |
| Day04Square.CountBound | solved_work_Day4/02_PUZZLE_SOLUTION/index_pt1_success.ts:94-106 | the count is at most 8 times the number of 'X' cells |
| Day04Square.CountGrid | solved_work_Day4/02_PUZZLE_SOLUTION/index_pt1_success.ts:92-106 | the nested loops count every (X cell, direction) pair that spells "XMAS", with no `break` |
| Day04Square.LineNeverThrows | solved_work_Day4/02_PUZZLE_SOLUTION/index_pt1_success.ts:86-90 | a line that is not blank never makes the grid's printing throw |
| Day04Square.SolvePt1 | solved_work_Day4/02_PUZZLE_SOLUTION/index_pt1_success.ts:78-114 | the sum over the pieces between literal backslash-n separators of each square grid's count; blank pieces and non-square pieces add 0 |
| DigitPairs.ParseTwoDigits | solved_Day1_2023_Example/02_PUZZLE_SOLUTION/code_template/src/index.ts:47 | `parseInt` of two decimal digit characters succeeds and gives ten times the first digit plus the second |
| Calibration2023.FirstDigitFrom | solved_Day1_2023_Example/02_PUZZLE_SOLUTION/code_template/src/index.ts:17-20 | the index found holds a digit and no digit comes before it from the starting index; none means no digit from there on |
| Calibration2023.LastDigitBefore | solved_Day1_2023_Example/02_PUZZLE_SOLUTION/code_template/src/index.ts:27-30 | the index found holds a digit and no digit follows it before the bound; none means no digit before the bound |
| Calibration2023.FindFirstDigit | solved_Day1_2023_Example/02_PUZZLE_SOLUTION/code_template/src/index.ts:17-20 | the result is "" exactly when the line has no digit, and otherwise is the one-character string of a digit with no digit before it |
| Calibration2023.FindLastDigit | solved_Day1_2023_Example/02_PUZZLE_SOLUTION/code_template/src/index.ts:27-30 | the result is "" exactly when the line has no digit, and otherwise is the one-character string of a digit with no digit after it |
| Calibration2023.CalibrationValue | solved_Day1_2023_Example/02_PUZZLE_SOLUTION/code_template/src/index.ts:37-49 | at most 99; 0 for a line without digits; otherwise ten times the first digit plus the last digit |
| Calibration2023.OneDigitTwice | solved_Day1_2023_Example/02_PUZZLE_SOLUTION/code_template/src/index.ts:46-47 | a line whose only digit is d is worth 11·d, the digit read twice |
| Calibration2023.WordsFacts | solved_Day1_2023_Example/02_PUZZLE_SOLUTION/code_template/src/index.ts:77-80 | number word k is at least three letters long, starts with a non-digit, is identified by its first two letters and maps to the digit k + 1 |
| Calibration2023.WordsUnique | solved_Day1_2023_Example/02_PUZZLE_SOLUTION/code_template/src/index.ts:77-80 | two number words that start at the same index are the same word |
| Calibration2023.WordAt | solved_Day1_2023_Example/02_PUZZLE_SOLUTION/code_template/src/index.ts:77-80 | the word search at an index finds the number word that occurs there |
| Calibration2023.TokenOfWord | solved_Day1_2023_Example/02_PUZZLE_SOLUTION/code_template/src/index.ts:99-104 | where number word k starts there is a token, and it reads the digit word k maps to |
| Calibration2023.FirstTokenFrom | solved_Day1_2023_Example/02_PUZZLE_SOLUTION/code_template/src/index.ts:87-108 | the index found starts a token (a digit or a number word) and no token starts between the starting index and it; none means no token from there on |
| Calibration2023.LastTokenBefore | solved_Day1_2023_Example/02_PUZZLE_SOLUTION/code_template/src/index.ts:115-137 | the index found starts a token and no token starts after it before the bound; none means no token before the bound |
| Calibration2023.Calibration | solved_Day1_2023_Example/02_PUZZLE_SOLUTION/code_template/src/index.ts:144-156 | the part-2 value is at most 99; the line has a first token exactly when it has a last one, and without tokens the value is 0 |
| Calibration2023.FirstTokenIs | solved_Day1_2023_Example/02_PUZZLE_SOLUTION/code_template/src/index.ts:87-108 | a token with no token before it is the first token |
| Calibration2023.LastTokenIs | solved_Day1_2023_Example/02_PUZZLE_SOLUTION/code_template/src/index.ts:115-137 | a token with no token after it is the last token |
| Calibration2023.SameEnds | solved_Day1_2023_Example/02_PUZZLE_SOLUTION/code_template/src/index.ts:144-156 | two lines whose first tokens read the same digit and whose last tokens read the same digit have the same part-2 value |
| Calibration2023.SingleToken | solved_Day1_2023_Example/02_PUZZLE_SOLUTION/code_template/src/index.ts:153-154 | a line with a single token is worth that digit read twice |
| Calibration2023.Examples | solved_Day1_2023_Example/02_PUZZLE_SOLUTION/code_template/src/index.ts:144-156 | "7" is worth 77 and "eightwo" is worth 82: overlapping number words both count |
| Calibration2023.FirstTurn | solved_Day1_2023_Example/02_PUZZLE_SOLUTION/code_template/src/index.ts:99-105 | one pass of the word loop keeps the recorded index the earliest token among the digits and the words taken so far, with that token's digit |
| Calibration2023.LastTurn | solved_Day1_2023_Example/02_PUZZLE_SOLUTION/code_template/src/index.ts:128-134 | one pass of the word loop keeps the recorded index the latest token among the digits and the words taken so far, with that token's digit |
| Calibration2023.FirstDone | solved_Day1_2023_Example/02_PUZZLE_SOLUTION/code_template/src/index.ts:87-108 | once every word has been taken in, the earliest token recorded is the first token of the line |
| Calibration2023.LastDone | solved_Day1_2023_Example/02_PUZZLE_SOLUTION/code_template/src/index.ts:115-137 | once every word has been taken in, the latest index recorded is the last token of the line, and -1 means the line has no token |
| Calibration2023.FindFirstDigitOrWord | solved_Day1_2023_Example/02_PUZZLE_SOLUTION/code_template/src/index.ts:87-108 | the result is "" when the line has no token, and otherwise the digit of its first token |
| Calibration2023.FindLastDigitOrWord | solved_Day1_2023_Example/02_PUZZLE_SOLUTION/code_template/src/index.ts:115-137 | the result is "" when the line has no token, and otherwise the digit of its last token |
| Calibration2023.ReadTokens | solved_Day1_2023_Example/02_PUZZLE_SOLUTION/code_template/src/index.ts:144-156 | the first search returns "" exactly when the line has no token; otherwise both searches return one digit each, and together they read as the part-2 value |
| Calibration2023.GetCalibrationValuePart2 | solved_Day1_2023_Example/02_PUZZLE_SOLUTION/code_template/src/index.ts:144-156 | the value returned is the part-2 value of the line: its first and last token's digits, or 0 without tokens |
| Calibration2023.NoWordsSameValue | solved_Day1_2023_Example/02_PUZZLE_SOLUTION/code_template/src/index.ts:144-156 | on a line that spells no number word, part 2 gives the same value as part 1 |
| Calibration2023.NonBlank | solved_Day1_2023_Example/02_PUZZLE_SOLUTION/code_template/src/index.ts:63 | a line is kept exactly when it is one of the input lines and is not blank once trimmed |
| Calibration2023.SumPt1 | solved_Day1_2023_Example/02_PUZZLE_SOLUTION/code_template/src/index.ts:62-65 | the part-1 values of n lines add up to at most 99·n |
| Calibration2023.SumPt2 | solved_Day1_2023_Example/02_PUZZLE_SOLUTION/code_template/src/index.ts:168-171 | the part-2 values of n lines add up to at most 99·n |
| Calibration2023.SolvePt1 | solved_Day1_2023_Example/02_PUZZLE_SOLUTION/code_template/src/index.ts:55-72 | the part-1 answer is at most 99 for each line of the file |
| Calibration2023.SolvePt2 | solved_Day1_2023_Example/02_PUZZLE_SOLUTION/code_template/src/index.ts:162-178 | the loop adds up the part-2 values of the non-blank lines, at most 99 for each line of the file |
| Calibration2023.NoWordsSameSum | solved_Day1_2023_Example/02_PUZZLE_SOLUTION/code_template/src/index.ts:162-178 | when no line spells a number word, both parts give the same sum |
| Calibration2023Py.PyStripStart | solved_work_Day1_2023_Example/02_PUZZLE_SOLUTION/calibration_part2.py:51 | the result is a suffix of the line, all whitespace is removed in front, and it does not start with whitespace |
| Calibration2023Py.PyStripEnd | solved_work_Day1_2023_Example/02_PUZZLE_SOLUTION/calibration_part2.py:51 | the result is a prefix of the line, all whitespace is removed behind, and it does not end with whitespace |
| Calibration2023Py.PyStrip | solved_work_Day1_2023_Example/02_PUZZLE_SOLUTION/calibration_part2.py:51 | `strip()` is never longer than the line, and the result has no whitespace at either end |
| Calibration2023Py.RecordWord | solved_work_Day1_2023_Example/02_PUZZLE_SOLUTION/calibration_part2.py:20-25 | recording a find of word w keeps every entry a token with its digit, and moves the search one past the find |
| Calibration2023Py.WordDone | solved_work_Day1_2023_Example/02_PUZZLE_SOLUTION/calibration_part2.py:21-23 | when the find comes back -1, every occurrence of word w, overlapping ones included, has been recorded |
| Calibration2023Py.AllRecorded | solved_work_Day1_2023_Example/02_PUZZLE_SOLUTION/calibration_part2.py:27-30 | after the digit loop the recorded positions are exactly the tokens of the line, each with its digit |
| Calibration2023Py.NothingRecorded | solved_work_Day1_2023_Example/02_PUZZLE_SOLUTION/calibration_part2.py:32-33 | an empty positions map means the line has no token, and its value is 0 |
| Calibration2023Py.Extremes | solved_work_Day1_2023_Example/02_PUZZLE_SOLUTION/calibration_part2.py:35-38 | when something is recorded, the first token is the least recorded position and the last token the greatest |
| Calibration2023Py.ReadEnds | solved_work_Day1_2023_Example/02_PUZZLE_SOLUTION/calibration_part2.py:36-41 | the digits at the least and the greatest position form a two-digit string whose value is the part-2 value of the line |
| Calibration2023Py.FindCalibrationValue | solved_work_Day1_2023_Example/02_PUZZLE_SOLUTION/calibration_part2.py:3-41 | the value returned is the part-2 value of the line, the same value the TypeScript `getCalibrationValuePart2` returns |
| Calibration2023Py.LineValue | solved_work_Day1_2023_Example/02_PUZZLE_SOLUTION/calibration_part2.py:51-54 | one line of the file adds at most 99 |
| Calibration2023Py.PyTotal | solved_work_Day1_2023_Example/02_PUZZLE_SOLUTION/calibration_part2.py:47-55 | the values of n lines add up to at most 99·n |
| Calibration2023Py.ProcessLines | solved_work_Day1_2023_Example/02_PUZZLE_SOLUTION/calibration_part2.py:50-54 | the loop adds the value of each stripped, non-blank line |
| Calibration2023Py.ProcessCalibrationFile | solved_work_Day1_2023_Example/02_PUZZLE_SOLUTION/calibration_part2.py:43-61 | the total of a file is the sum of its stripped, non-blank lines' values, and equals the TypeScript part-2 answer for the same text |
| Calibration2023Py.TokensAfterPrefix | solved_work_Day1_2023_Example/02_PUZZLE_SOLUTION/calibration_part2.py:51 | characters that are neither digits nor lowercase letters put in front shift every token by their count and change no token's digit |
| Calibration2023Py.TokensBeforeSuffix | solved_work_Day1_2023_Example/02_PUZZLE_SOLUTION/calibration_part2.py:51 | characters that are neither digits nor lowercase letters put behind change no token and no token's digit |
| Calibration2023Py.CalibrationDropPrefix | solved_work_Day1_2023_Example/02_PUZZLE_SOLUTION/calibration_part2.py:51 | such characters in front do not change the part-2 value |
| Calibration2023Py.CalibrationDropSuffix | solved_work_Day1_2023_Example/02_PUZZLE_SOLUTION/calibration_part2.py:51 | such characters behind do not change the part-2 value |
| Calibration2023Py.StripStartKeeps | solved_work_Day1_2023_Example/02_PUZZLE_SOLUTION/calibration_part2.py:51 | removing leading whitespace does not change the part-2 value |
| Calibration2023Py.StripEndKeeps | solved_work_Day1_2023_Example/02_PUZZLE_SOLUTION/calibration_part2.py:51 | removing trailing whitespace does not change the part-2 value |
| Calibration2023Py.LineValueIsCalibration | solved_work_Day1_2023_Example/02_PUZZLE_SOLUTION/calibration_part2.py:51-54 | what a line adds is its part-2 value, stripped or not, and a blank line adds 0 |
| Calibration2023Py.JsBlankIsZero | solved_Day1_2023_Example/02_PUZZLE_SOLUTION/code_template/src/index.ts:63 | a line that `trim()` leaves empty is worth 0, so the TypeScript filter drops nothing that counts |
| Calibration2023Py.SameTotals | solved_work_Day1_2023_Example/02_PUZZLE_SOLUTION/calibration_part2.py:47-55 | for every list of lines, the Python total equals the sum of part-2 values over the lines the TypeScript keeps |
| Day03Pattern.DigitsFrom | node_runner/src/solved/index.day3.ts:13 | the count of digits read from a position is at most three, as `\d{1,3}` allows |
| Day03Pattern.DigitsFromExact | node_runner/src/solved/index.day3.ts:13 | a run of one to three digits followed by a non-digit is counted in full |
| Day03Pattern.DigitsFromRun | node_runner/src/solved/index.day3.ts:13 | the digits counted lie inside the text and are all decimal digits |
| Day03Pattern.NumeralAt | node_runner/src/solved/index.day3.ts:13 | a group found at p is one to three digits and is followed by the closing character inside the text |
| Day03Pattern.NumeralAtOccurs | node_runner/src/solved/index.day3.ts:13 | the group found occurs at p and the closing character right after it |
| Day03Pattern.NumeralAtFinds | node_runner/src/solved/index.day3.ts:13 | every numeral followed by a non-digit closing character is found at its position, with exactly its digits |
| Day03Pattern.NumeralAtShift | solved_work_Day3/02_PUZZLE_SOLUTION/index.ts:19 | reading a group in a suffix reads the same group in the whole text at the shifted index |
| Day03Pattern.OpensAtOccurs | node_runner/src/solved/index.day3.ts:13 | the scanner's test for `mul(` holds exactly where the text `mul(` occurs |
| Day03Pattern.OpensAtShift | solved_work_Day3/02_PUZZLE_SOLUTION/index.ts:19 | testing for `mul(` in a suffix is testing the whole text at the shifted index |
| Day03Pattern.MulAt | node_runner/src/solved/index.day3.ts:13 | a match found at i starts at i, has two numeral groups and ends inside the text |
| Day03Pattern.MulAtSound | node_runner/src/solved/index.day3.ts:13 | the text `mul(`, group 1, `,`, group 2, `)` occurs where the scanner reports a match |
| Day03Pattern.MulAtFinds | node_runner/src/solved/index.day3.ts:13 | wherever `mul(a,b)` with numerals a and b occurs, the scanner finds exactly that match; with `MulAt` and `MulAtSound` it succeeds exactly where the pattern matches |
| Day03Pattern.MulAtPieces | node_runner/src/solved/index.day3.ts:13 | an occurrence of the pattern's text opens with `mul(` and holds its two numerals where the scanner reads them |
| Day03Pattern.MulAtShift | solved_work_Day3/02_PUZZLE_SOLUTION/index.ts:19 | trying the pattern in a suffix succeeds exactly when it succeeds at the shifted index of the whole text, with the same groups |
| Day03Pattern.FirstMatchAt | solved_work_Day3/02_PUZZLE_SOLUTION/index.ts:9 | the index found holds a match and no index between the start and it does; with none found, no index from the start on holds a match |
| Day03Pattern.NoMatchPastEnd | node_runner/src/solved/index.day3.ts:17 | no match starts at or past the end of the text |
| Day03Pattern.MatchesFrom | node_runner/src/solved/index.day3.ts:17 | `matchAll` yields well-formed matches inside the text, at or after the start, in order and without overlap |
| Day03Pattern.MatchesFound | node_runner/src/solved/index.day3.ts:17 | every listed match is what the scanner finds at its index |
| Day03Pattern.MatchesCover | node_runner/src/solved/index.day3.ts:17 | every index at or after the start where the pattern matches lies inside some listed match: none is skipped unless an earlier match covers it |
| Day03Pattern.NumeralBelow | node_runner/src/solved/index.day3.ts:25 | a digit string reads as less than 10 to the power of its length |
| Day03Pattern.NumeralAtMost | node_runner/src/solved/index.day3.ts:25 | `parseInt` of a group is at most 999 |
| Day03Pattern.ProductAtMost | node_runner/src/solved/index.day3.ts:25 | two factors of at most 999 multiply to at most 998001 |
| Day03Pattern.ProductBound | node_runner/src/solved/index.day3.ts:25 | the product of a match is at most 999 · 999 |
| Day03Pattern.TotalBound | node_runner/src/solved/index.day3.ts:19-28 | the sum over a list of matches is at most 998001 per match |
| Day03Pattern.TotalStep | node_runner/src/solved/index.day3.ts:19-28 | a match at i adds its product and the list resumes at its end; otherwise the list from i is the list from i + 1 |
| Day03Pattern.SameProduct | node_runner/src/solved/index.day3.ts:25 | the product depends only on the two groups |
| Day03Pattern.NoMulNoSum | node_runner/src/solved/index.day3.ts:17-30 | a text with no `mul(` sums to 0 |
| Day03Pattern.SumFromTotal | solved_work_Day3/02_PUZZLE_SOLUTION/index.ts:4-23 | the left-to-right scan that adds each match's product and resumes after it sums what the `matchAll` list sums |
| Day03Pattern.SumFromNoMatch | solved_work_Day3/02_PUZZLE_SOLUTION/index.ts:9 | the scan passes over indexes where no match starts without adding anything |
| Day03Pattern.SumFromShift | solved_work_Day3/02_PUZZLE_SOLUTION/index.ts:19 | scanning a suffix from j sums what scanning the whole text from the shifted index sums |
| Day03Pattern.SumFromSuffix | solved_work_Day3/02_PUZZLE_SOLUTION/index.ts:19 | scanning `remaining.substring(k)` from its start sums what scanning the text from k sums |
| Day03Scan.SumMatches | node_runner/src/solved/index.day3.ts:19-28 | every match passes the length check, and the sum of the `parseInt` products is the sum over the `matchAll` list |
| Day03Scan.SolvePt1 | node_runner/src/solved/index.day3.ts:10-35 | part 1 is the sum of x·y over the non-overlapping left-to-right matches of the memory |
| Day03Scan.Filtered | node_runner/src/solved/index.day3.ts:41-63 | the filtered text is never longer than the input |
| Day03Scan.FilteredStep | node_runner/src/solved/index.day3.ts:46-62 | at each position a `do()` is dropped and turns counting on, else a `don't()` is dropped and turns it off, else the character is copied exactly when counting |
| Day03Scan.AppendAssociates | node_runner/src/solved/index.day3.ts:60 | appending a character to the copy and then the rest is appending both |
| Day03Scan.FilterToggles | node_runner/src/solved/index.day3.ts:41-63 | the character loop builds exactly the filtered text of the whole memory, starting with counting on |
| Day03Scan.SolvePt2 | node_runner/src/solved/index.day3.ts:37-86 | part 2 is the sum over the matches of the filtered memory |
| Day03Scan.AbsentInSuffix | node_runner/src/solved/index.day3.ts:48-57 | a toggle absent from the memory is absent from every rest of it |
| Day03Scan.FilteredOffUntilDo | node_runner/src/solved/index.day3.ts:53-62 | once `don't()` is in force, nothing is copied until a `do()` comes |
| Day03Scan.FilteredNoToggles | node_runner/src/solved/index.day3.ts:59-63 | with neither toggle in the memory the filter copies it whole, so the lengths are equal |
| Day03Scan.SameAnswerWithoutToggles | node_runner/src/solved/index.day3.ts:37-86 | with neither toggle in the memory, part 2 answers what part 1 answers |
| Day03Scan.TogglesDropped | node_runner/src/solved/index.day3.ts:48-57 | a toggle is dropped from the copy whatever the state before it; `do()` leaves counting on and `don't()` off |
| Day03Scan.NotToggleAt | node_runner/src/solved/index.day3.ts:48-57 | no toggle starts at a character other than `d` |
| Day03Scan.FilteredRun | node_runner/src/solved/index.day3.ts:59-62 | a stretch in which no toggle starts is copied whole when counting and dropped whole otherwise |
| Day03Scan.GluedText | node_runner/src/solved/index.day3.ts:45-63 | the filter turns `mul(2,do()3)` into `mul(2,3)` |
| Day03Scan.GluedSum | node_runner/src/solved/index.day3.ts:65-79 | `mul(2,3)` sums to 6 |
| Day03Scan.CutSum | node_runner/src/solved/index.day3.ts:17-28 | `mul(2,do()3)` holds no match and sums to 0 |
| Day03Scan.GluedMatch | node_runner/src/solved/index.day3.ts:45-79 | part 2 answers 6 on `mul(2,do()3)`, where part 1 answers 0: the filter glues a new match together |
| Day03Scan.SumFromSkip | node_runner/src/solved/index.day3.ts:17 | characters that cannot start `mul(` add nothing to the scan |
| Day03Scan.ToggleHasNoMatch | node_runner/src/solved/index.day3.ts:48-57 | the scan passes over a whole `do()` or `don't()` without adding anything |
| Day03Scan.EnabledAtMostAll | node_runner/src/solved/index.day3.ts:41-79 | the corrected part 2, which sums the memory's own matches while enabled, never exceeds part 1 |
| Day03Scan.EnabledWithoutDont | node_runner/src/solved/index.day3.ts:41-79 | with no `don't()` the corrected part 2 counts every match and equals part 1 |
| JsText.JoinAppendEmpty | solved_work_Day3/02_PUZZLE_SOLUTION/index.ts:73 | `join('')` of the segments with one more segment appends that segment |
| Day03Segments.LeftmostMatch | solved_work_Day3/02_PUZZLE_SOLUTION/index.ts:9-19 | the sum of the scan is the product of the leftmost match plus the sum of the text after it |
| Day03Segments.SolvePt1 | solved_work_Day3/02_PUZZLE_SOLUTION/index.ts:4-23 | the loop that takes the leftmost match, adds its product and continues after it returns the sum of the left-to-right scan; an empty input gives 0 |
| Day03Segments.NextToggle | solved_work_Day3/02_PUZZLE_SOLUTION/index.ts:32-45 | -1 exactly when neither toggle occurs; otherwise a toggle starts there and none starts before it |
| Day03Segments.Collected | solved_work_Day3/02_PUZZLE_SOLUTION/index.ts:31-65 | the text the loop collects is never longer than the input |
| Day03Segments.CollectedStep | solved_work_Day3/02_PUZZLE_SOLUTION/index.ts:43-64 | a turn on a rest with a toggle collects the text before it when counting, then whatever the rest five characters past the toggle collects, in the state the slice comparison gives |
| Day03Segments.CloseSegment | solved_work_Day3/02_PUZZLE_SOLUTION/index.ts:57-61 | when counting stops a non-empty segment is saved and a new one begun, and the segments and the current one still join to the same text |
| Day03Segments.PassToggle | solved_work_Day3/02_PUZZLE_SOLUTION/index.ts:47-64 | the text collected so far together with what the rest will collect is unchanged by a turn, and the rest gets shorter |
| Day03Segments.CollectSegments | solved_work_Day3/02_PUZZLE_SOLUTION/index.ts:26-70 | the saved segments, joined with no separator, are exactly the collected text |
| Day03Segments.SolvePt2 | solved_work_Day3/02_PUZZLE_SOLUTION/index.ts:25-74 | part 2 is the part-1 sum of the collected text |
| Day03Segments.SliceIsDo | solved_work_Day3/02_PUZZLE_SOLUTION/index.ts:53-55 | the five-character slice from a toggle equals `do()` exactly when the toggle is a `do()` that ends the text, so any toggle with a character after it turns counting off |
| Day03Segments.CollectedOff | solved_work_Day3/02_PUZZLE_SOLUTION/index.ts:53-64 | once counting is off, nothing more is collected |
| Day03Segments.CollectedKeepsPrefix | solved_work_Day3/02_PUZZLE_SOLUTION/index.ts:31-70 | part 2 collects the memory up to its first toggle, or all of it when there is none |
| Day03Segments.SameAnswerWithoutToggles | solved_work_Day3/02_PUZZLE_SOLUTION/index.ts:35-73 | with neither toggle in the memory, part 2 answers what part 1 answers |
| Day03Segments.DoStopsCounting | solved_work_Day3/02_PUZZLE_SOLUTION/index.ts:53-55 | on `do()mul(2,3)` nothing is collected |
| Day03Segments.DoDroppedByFilter | node_runner/src/solved/index.day3.ts:41-63 | the node runner's filter keeps `mul(2,3)` of `do()mul(2,3)` |
| Day03Segments.DoIgnored | solved_work_Day3/02_PUZZLE_SOLUTION/index.ts:53-55 | on `do()mul(2,3)` this part 2 answers 0 where the node runner's answers 6 |
| Day03Segments.CollectedFixed | solved_work_Day3/02_PUZZLE_SOLUTION/index.ts:53-64 | with the toggle compared on its own characters and skipped by its own length, the collected text is never longer than the input |
| Day03Segments.CollectedFixedFilters | solved_work_Day3/02_PUZZLE_SOLUTION/index.ts:53-64 | the corrected loop collects exactly what the node runner's character filter keeps, in either starting state |
| Day01Lists.RunOfSpacesIsNaN | solved_work_Day1/02_PUZZLE_SOLUTION/index.ts:14 | a line whose two numbers are separated by a run of spaces, such as `3   4`, has an empty second field, which reads as NaN |
| Day01Lists.Numbers | solved_work_Day1/02_PUZZLE_SOLUTION/index.ts:41-50 | the numeric entries of a list, in order; when every entry is a number they are the list itself |
| Day01Lists.NumbersSnoc | solved_work_Day1/02_PUZZLE_SOLUTION/index.ts:41-43 | one more entry adds its number to the numeric entries when it has one and leaves them unchanged when it is NaN |
| Day11Cycles.Signatures | solved_work_Day11/02_PUZZLE_SOLUTION/index.ts:77-90 | entry j is the serialised state after j blinks, or nothing when a stone throws before then |
| Day11Cycles.EarliestLike | solved_work_Day11/02_PUZZLE_SOLUTION/index.ts:80 | the first recorded signature equal to the given one, and no earlier one is; nothing when none is |
| Day11Cycles.EarliestIs | solved_work_Day11/02_PUZZLE_SOLUTION/index.ts:80-81 | over an exact history, the first state that serialises to the signature is the one `EarliestLike` finds among the signatures |
| Day11Cycles.CycleFrom | solved_work_Day11/02_PUZZLE_SOLUTION/index.ts:75-95 | a repeat it reports has cycle length at least 1 and is found before maxIterations blinks |
| Day01Lists.Frequency | solved_work_Day1/02_PUZZLE_SOLUTION/index.ts:40-43 | the keys of the frequency map are exactly the numbers of the right list, each mapped to its number of occurrences |
| Day01Lists.TalliesSnoc | solved_work_Day1/02_PUZZLE_SOLUTION/index.ts:42 | counting one more number raises its entry by one, adding the key when it is new, and keeps the map exact |
| Day01Lists.SimilarityNext | solved_work_Day1/02_PUZZLE_SOLUTION/index.ts:47-51 | one more number on the left adds its product with its count on the right to the score |

## Left out

- Reading the input files, the `start()` drivers, their try/catch and all console output
  (`printGrid` and the tracing in `canPushBox` and `moveBox`).
- Day15WideGrid.MoveBox: does not state that a vertical push `canPushBox` allows always
  succeeds in full; because `moveBox` commits the left box of a straddle before re-checking
  the right one against the partly updated grid, for a vertical push only the pairing
  invariant, the frame, the pushed box's own row and the cells it lands on are proved; the
  other cells of the rows in front of the push are left open.
- Day15WideGrid.MoveRobot: requires a rectangular grid; a write past the end of a shorter
  row would lengthen a JavaScript array, which the model does not represent.
- Day15WideGrid.SolvePart2: requires the widened map to be rectangular, for the same reason
  as `MoveRobot`; a ragged map is not modelled.
- Day15WideGrid.PlayMoves: the final grid is stated as one that `Played` allows, so it is
  only as determined as `Moved`; after a vertical push, only the cells of the rows in front
  other than those the pushed box lands on are not fixed (see `MoveBox`).
- Day15Narrow.Warehouse.constructor: requires a non-empty map; JavaScript throws on
  `input[0].length` for an empty one, and `SolvePart1` returns that error instead.
- Day09Disk.Solve: splits the file text on the two characters backslash and `n`, exactly as
  written, so the disk map is the whole text up to the first such pair (a trailing newline
  parses as a zero-size block); the `catch` returning -1 is not modelled, as nothing in the
  modelled path throws.
- Day09Disk.CompactDiskBlocks: states length and multiset preservation and the per-move facts
  (`MoveBlock`, `BlockLeftOfFile`), not a closed-form description of the final layout.
- The `getOperandValue`, `executeInstruction`, `parseInput`, `runProgram` and `solve_pt1` of
  solved_work_Day17/02_PUZZLE_SOLUTION/index.ts (lines 36-86 and 248-280) are the same text as in node_runner/src/solved/index.day17.ts and are modelled once, in
  `Day17Computer`; `Day17Analysis` reuses that machine.
- The part 2 searches of Day 17: the float-scaled range scan with its timing reports
  (node_runner/src/solved/index.day17.ts:105-180) and the heuristic `findHigherSolution` search with `formatBinary` and
  `analyzeEnhancedValueGeneration` (solved_work_Day17/02_PUZZLE_SOLUTION/index.ts:125-246, 282-294), which rely on floating point,
  BigInt conversion and regular expressions.
- Day17Computer.Xor: JavaScript `^` works on 32-bit signed integers; the model XORs
  unbounded naturals, which agrees while the registers fit in 31 bits.
- Day17Computer.ParseInput: registers that `parseInt` reads as NaN or as negative numbers,
  and program entries that `Number` reads other than as plain decimals (signs, exponents,
  hexadecimal), are reported as a parse error instead of being run.
- Day17Computer.Machine.RunProgram: a program may loop forever (a backward jump, or an opcode
  above 7, which leaves ip in place); the model bounds the loop by a step count and
  `SolvePart1` reports an error when the bound is reached.
- Day11Stones.ProcessStone: `BigInt` also accepts a sign and surrounding whitespace; an
  odd-length stone in such a form is treated as a `SyntaxError` rather than read.
- Day11Cycles.Less: `localeCompare` is locale collation; the model uses code-unit order,
  which agrees on the digit-only keys the puzzle produces.
- Day11Cycles.SolvePart2: does not prove that the cycle shortcut yields the same total as 75
  direct blinks; the total it states for a repeat is that of the state at the cycle's final index.
- The `arrayToStoneMap`, `calculateTotalStones` and `readInitialStones` of solved_work_Day11/02_PUZZLE_SOLUTION/index.ts are the same
  text as in node_runner/src/solved/index.day11.ts and are modelled once, in `Day11Stones`.
- Day 2 line parsing (`split(' ').map(Number)` and `map(parseInt)`): the kernels take the
  reports as integer lists; a field `Number` reads as NaN (whose comparisons are all false)
  is not modelled.
- Day07Equations.JsConcat: `${x}` of a number of 21 digits or more is written in exponent
  form by JavaScript; the model always writes plain decimal digits (unbounded integers, no
  precision loss).
- Day19Towels.Solve: a pattern list holding an empty pattern (from a malformed `", , "`)
  makes the source recurse at the same position until the stack overflows, unless an
  earlier pattern already succeeded; the model reports such an input as an error outright.
- Day 14: the console output, `drawGrid` and the `bestConfiguration` bookkeeping of part 2 only print; they are left out, and the largest group size that `findContiguousGroups` also reports is bounded but not characterised.
- Day 14: the `"x,y"` text keys of the position map and the visited set are modelled as `Position` values, which is the same key space since `positionToKey` is injective on integers.
- Day14Robots.SolvePt1: uses the 11 by 7 sample grid for any input, as `solve_pt1` does.
- Day14Robots.ParseRobot: `parseInt` of the matched digits is modelled as the exact integer; JavaScript number precision for very long digit strings is not modelled.
- Day 6: the `debug`/`printGrid` output (switched off by `DEBUG = false`) and the `Checking n` progress lines are left out; the `"x,y,dir"` and `"x,y"` text keys of the two sets are modelled as `GuardState` and `Position` values, which is the same key space.
- Day 6: the grid's `string[][]` rows are modelled as a sequence of character sequences that the trial loop rewrites and restores; the in-place update of one shared array is not modelled, and it cannot be observed because the grid is local to `solve_pt2`.
- Day06Guard.Patrol: the bound of four states per cell on the length of the walk is not stated; termination is proved from the finiteness of the reachable states instead.
- Day05Pages.ParseRule: a rule line without `|` leaves its `after` page `undefined`, which the model reads as NaN; the two differ only for an update that itself holds a NaN page, which `includes` then finds.
- Day05Pages: `Number()` of hexadecimal, exponent or decimal-point text is read as NaN rather than as its value, and -0 is not told apart from 0; console output and the file read are left out.
- Day05Pages.TopologicalSort: does not state that a distinct update with acyclic applicable rules always sorts to full length; only what a full-length result satisfies is proved.
- Day 8: the console logging and the file read are left out; the input text is a parameter.
- Day 8: the set of text keys `"x,y"` is modelled by a set of positions; two positions give the same key exactly when they are equal, since whole numbers print uniquely.
- Day 8: the `catch` answer 0 is not modelled: nothing in the body can throw once the input is read.
- Day 10: the `start()` driver and its file read and console output are left out; the input text is a parameter.
- Day10Trails.FindPeaks: models the call with its default fresh `visited`, the only way `solve_pt1` calls it; a caller-supplied `visited` shared across calls is not modelled.
- Day10Trails.CountUniquePaths: requires the current cell not to be in `visited` already; every call in the source meets this (the top call passes an empty set and each recursive call is guarded by the `visited.has` test), and it is what the termination proof rests on.
- Day 10: `split('')` splits into UTF-16 code units; the model splits into characters.
- Day 13: `split(/\r?\n/)` is modelled as a split on `"\n"`; the `\r` it would also drop is removed by the `trim` every line goes through, so the lines read are the same.
- Day 13: coordinates are unbounded integers; JavaScript Number precision is not modelled (the products of part 2 stay below 2^53 for puzzle-sized offsets, and the BigInt search is exact anyway).
- Day 13: the `-1` both solvers return from their `catch` is modelled as the error itself (`Err("TypeError")` from a malformed line, `Err("RangeError")` from `BigInt(NaN)`).
- Day13Claw.ParseBlocks: the round trip is stated for machines with non-negative coordinates, written with `X+`/`Y+` for buttons and `X=`/`Y=` for the prize; negative coordinates, which the puzzle does not use, are not covered.
- Day 12: the `"x,y"` text keys of `visited` and of the point sets are modelled as `Point` values, which is the same key space; the console output of `countSides` and `solve_pt2` is left out.
- Day 12: `findRegions`, `calculatePerimeter` and `solve_pt1` of solved_work_Day12/02_PUZZLE_SOLUTION/index.ts are the same text as in node_runner/src/solved/index.day12.ts and are modelled once, in `Day12Garden`; its stub `countSides` is the `ByStub` fence.
- Day12Garden.RegionOk: closure is stated for plots inside the first row's width; on a ragged grid a plot beyond that width starts its own region, because the neighbour scan never enters such plots.
- Day12Garden.SolvePt1: the regions are returned as a ghost value; the model does not prove that the partition is unique, so the answer is tied to the partition `findRegions` builds.
- Day 18: solved_work_Day18/02_PUZZLE_SOLUTION/index.ts is the same program with `SAMPLE_MODE = true`; both settings are the `Full` and `Sample` values of `Setup`, passed to `SolvePt1` and `SolvePt2`, and its `printGrid` (console output only) is left out, as are the `start()` driver, the file read and the `console.log` of the caught error.
- Day 18: the `"x,y"` text keys of `visited` are modelled as `Point` values, which is the same key space; the `string[][]` grid is an `array2<char>` whose rows all have the grid's length, as `createGrid` builds them.
- Day 18: a coordinate written with a decimal point or an exponent (such as `1.5`) is read as NaN, so its line is skipped; JavaScript would write a property that is no cell for such an `x` (no visible change) but would throw for such a `y`.
- Day18Bytes.FindShortestPath: the queue is a sequence value that each turn replaces by its tail followed by the turn's pushes; the in-place `shift` and `push` of the array are not modelled.
- Day 16: the clock-driven queue pruning and its logging in `findAllOptimalPaths` (node_runner/src/solved/index.day16.ts:185-206, solved_work_Day16/02_PUZZLE_SOLUTION/index.ts:131-139) depend on `Date.now` and are not modelled; the searches run without them. The score map they read is still computed, as the source does.
- Day 16: `queue.sort` by score followed by `shift` is modelled as taking the earliest item of least score and leaving the others in their order; the stable sort keeps the same relative order among equal scores, but the sorted queue's order is not otherwise represented.
- Day 16: the `"x,y"` and `"x,y,dir"` text keys are modelled as `Point` and `State` values, which is the same key space; a `DirectionalScore` of `Infinity` entries is modelled as absent map entries.
- Day 16: `move`, `getRotations` and `solve` of solved_work_Day16/02_PUZZLE_SOLUTION/index.ts (lines 55-108 and 165-228) are the same text as in node_runner/src/solved/index.day16.ts and are modelled once; its `findAllOptimalPaths` (110-163) differs only in the pruning.
- Day 16: the console output of `solve_pt2` and the file read are left out.
- Day 20 (`index.day20.ts`): the `Date.now` progress reports in `findAllValidPaths` and `solve_pt2`, and the evaluated/valid counters they print, are console output driven by the wall clock; the model leaves them out.
- Day 20 (`index.day20.ts`): the ≥ 50 filter and the sort in `solve_pt2` only feed the console listing; the answer is modelled as the count of cheats saving at least 100, which neither changes.
- Day 20: cells are `Point` values and cheat keys are pairs of them, in place of the `"x,y"` strings, `posToString`/`stringToPos` and the `cheatKey.split('-')` parse, which round-trip for integer coordinates.
- Day 20: the Set of reachable cells and the Maps of cheats and savings are iterated in insertion order in the source; the model iterates them in an arbitrary order and every result it states is independent of that order.
- Day 20: reading `src/input.txt`, the `try`/`catch` that answers 0 or -1 on a read error, and the `start()` drivers are I/O and are left out; the input text is a parameter.
- Day20Estimate.IsValidPosition: requires a non-empty grid, since the source reads the first row first; every grid built by `split('\n')` has one.
- Day 4 (`index.ts`): the `console.log` of the two diagonals in `checkXShapedMAS` and the `start()` driver with its file read are output and I/O; the model leaves them out.
- Day 4 (`index_pt1_success.ts`): `printGrid`'s output, the `console` messages and the `try`/`catch` around the file read are left out. The model keeps the one place printing matters: it reads the first row of an empty grid and throws.
- Day04Square.Root: `Math.sqrt` and `Number.isInteger` are floating point. The model takes the exact integer root. The two agree on every perfect square below 2^52 but can differ on a huge length just above a square.
- Day04Square.SolvePt1: the source splits the file on the two-character text backslash-n, which a real file rarely contains. The whole file is then normally one piece, and stripping whitespace turns its lines into one square grid. The model keeps that split as written.
- Calibration2023.SolvePt1: states only the bound of 99 per line. Its value is the sum of the part-1 values of the non-blank lines, and `NoWordsSameSum` relates that sum to part 2.
- `solve_pt1` and `solve_pt2` of 2023 Day 1 read `src/input.txt` and return -1 when that throws. The model takes the file's text as a parameter.
- `process_calibration_file` opens a file and returns 0 on `FileNotFoundError` or any other exception. The model takes the file's text as a parameter and splits it on `\n`; the universal-newline translation of `\r` and `\r\n` is not modelled.
- `find_calibration_value` tests digits with Python's `str.isdigit` and converts them with `int`. Both accept Unicode digits beyond `0`-`9`, and `int` raises `ValueError` on some characters `isdigit` accepts. The model reads only the ASCII digits `0`-`9`.
- The regular expressions `/\d/` and `/\d/g` of 2023 Day 1 are modelled as scans for the characters `0`-`9`, which is what `\d` matches without the `u` flag.
- Day 3: the regular expression `/mul\((\d{1,3}),(\d{1,3})\)/` is not run by a general regular-expression engine. `MulAt` is a scanner written for this one pattern, and `MulAtSound` and `MulAtFinds` prove that it agrees with the pattern. `\d` is read as `0`-`9`, which is what it matches without the `u` flag.
- Day 3: reading `input.txt`, the `try`/`catch` that logs and returns -1, the `start()` driver and the `import.meta` entry point are I/O and are left out. The memory's text is a parameter.
- Day 3: sums are unbounded naturals. JavaScript numbers are exact only up to 2^53, and each match adds at most 998001 (`ProductBound`, `TotalBound`).
- Day03Pattern.Product: counts 0 for a match whose groups are not numerals. The scanner never builds one.
- Day07Equations.ParseLine: `parseInt` without a radix reads text starting with `0x` or `0X` (after an optional sign) as hexadecimal, so `0x1A` is 26; the model reads only decimal digits and takes such a field as 0, the value of its leading `0`.
- Day13Claw.ParseLine: the coordinates go through `parseInt` without a radix, which reads a `0x`/`0X` prefix as hexadecimal; the model reads only decimal digits, so such a coordinate is taken as 0.
- Day18Bytes.MarksIndex: `Number` also reads `0x`, `0o` and `0b` prefixes and `Infinity` with an optional sign; the model reads these as NaN, so such a line is `Ignored`. The program instead marks the cell of a hexadecimal coordinate, and throws on a `y` of `-Infinity`, which passes the guard. `Day18Bytes.SolvePt1` and `Day18Bytes.SolvePt2` inherit this.
- JsText.ParseInt and JsText.JsNumber read decimal integer text only: the hexadecimal, octal and binary prefixes, `Infinity`, decimal points and exponents are outside the model (see the lines for the members that call them).
- Day01Lists.SortAscending: the comparator `(a, b) => a - b` is inconsistent once a NaN is in the list (and `sort` moves `undefined` to the end), so the order of such a sorted copy is not modelled; the total is NaN whatever that order is, which is what `SolvePart1` states.
- Day01Lists.SolvePart2: the NaN and `undefined` keys that the right list may add to the frequency map are left out of it; no number on the left is ever looked up under them.

## Findings

| source | as written | input that shows it | evidently intended | confidence | as-written member | corrected member |
|---|---|---|---|---|---|---|
| solved_work_Day16/02_PUZZLE_SOLUTION/index.ts:29-47 | `minRotations` counts 2 turns for facing away from the end and adds 1 more when the other coordinate differs, so it can ask for 3 turns | at (5,5) facing East, the end at (3,3) and 2004 points left: the test asks for 3004, yet turning left, stepping north twice, turning left and stepping west twice costs 2004 | a lower bound for pruning: at most 2 turns (a U-turn faces the other axis midway), so 2 when facing away, else 1 when the other coordinate differs | high (proved; not executed) | Day16Moves.PossiblyPrunesReachable | Day16Moves.StillReachSound |
| solved_work_Day3/02_PUZZLE_SOLUTION/index.ts:53-64 | the toggle is read as the five characters from its start and compared with `do()`, and the loop then skips five characters | `do()mul(2,3)`: the slice is `do()m`, so counting stops, and part 2 answers 0 where the node runner answers 6 | compare the toggle's own characters (`do()` is four long) and skip each toggle by its own length, so that `do()` turns counting back on | high (proved; not executed) | Day03Segments.DoIgnored | Day03Segments.CollectedFixedFilters |
| node_runner/src/solved/index.day3.ts:59-68 | the enabled characters are glued into one string before the pattern is searched, so removing a toggle can join a new instruction | `mul(2,do()3)`: part 1 finds no match and answers 0, but the filtered text is `mul(2,3)` and part 2 answers 6 | sum only the memory's own matches that start while enabled, which can never exceed part 1 | high (proved; not executed) | Day03Scan.GluedMatch | Day03Scan.EnabledAtMostAll |
