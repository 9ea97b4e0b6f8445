# Advent of Code 2024 solvers, days 1, 2, 4, 5 and 6, in Dafny

This project models the puzzle logic of five daily solvers from an Advent of
Code 2024 repository written in Python, and proves what each one computes:

- **Day 1, list distance** (`ListDistance`). Two columns of location ids are
  sorted in place and paired off by index; the answer is the total distance
  between the pairs. The similarity score weights each distinct left id by
  how often it occurs in the right column.
- **Day 2, reports** (`Reports`). A report is safe when its levels move in
  one direction by 1 to 3 at every step. The tolerant check also accepts a
  report that becomes safe once one level is popped. `safety_check` counts
  the safe reports.
- **Day 4, word search** (`WordSearch`). There are eight direction checkers,
  each with its own bounds guard. The single-word matcher adds up the eight
  results; the cross matcher looks for the word on both diagonals through a
  pivot cell. `_wc` runs a matcher over every cell holding a chosen letter.
- **Day 5, page ordering** (`PageOrdering`). Each page of an update line is
  filed into a binary tree of `Node` objects by the precedence rules, and
  the in-order walk is the corrected line. Lines are split into unchanged and
  corrected ones, and the middle pages of each group are summed.
- **Day 6, guard walk** (`GuardWalk`). A `Guard` object walks a mutable
  board, turning right until the cell ahead is open. It marks the cells it
  visits and counts the distinct ones until the next cell it would move to
  is off the board.

Objects whose fields the source updates are Dafny classes: `Guard`, `Node`
and the day-1 `Sink`. Each of their methods is proved against a pure
specification function (`Look` and `Run` for the guard, `Insert`, `Walk`,
`Sort`, `Distance`, `Similarity`), and the lemmas beside those functions state what the source
promises. Python exceptions are explicit outcomes:

- `IndexError` in day 2 is `Verdict.IndexError` and `Tally.Raised`.
- `ValueError` in day 5 is `ok == false` or `None`.
- `MapError` in day 6 is `PeekResult.Enclosed` and `MarchOutcome.Trapped`.
- "Guard not found!" in day 6 is `None` from `Guard.Create`.

`Wrappers` holds the `Option` type shared by the modules.

## Model

| member | source | states |
|---|---|---|
| GuardWalk.FindSelf | 2024/06_2024/solution.py:37-42 | returns the first '^' in row-major order, or None exactly when the board holds no '^' |
| GuardWalk.Guard.Create | 2024/06_2024/solution.py:32-42 | a guard exists exactly when the board holds a '^'; it then stands on the first one, facing North, on the given board |
| GuardWalk.Guard.At | 2024/06_2024/solution.py:32-35 | a new guard holds the board and the position and faces North |
| GuardWalk.TurnsCompose | 2024/06_2024/solution.py:53-57 | turning a then b quarter turns clockwise is turning a + b |
| GuardWalk.RightThenLeft | 2024/06_2024/solution.py:65-69 | k right turns followed by k left turns restore the heading |
| GuardWalk.FullTurns | 2024/06_2024/solution.py:53-57 | zero turns, and four turns either way, leave the heading unchanged |
| GuardWalk.TurnExamples | 2024/06_2024/solution.py:218-248 | 3, 4 and 7 right turns and 2, 4 and 7 left turns give the headings of the source's own cases |
| GuardWalk.Guard.TurnRight | 2024/06_2024/solution.py:53-57 | the new heading is turnCount quarter turns clockwise of the old one (index (i + k) mod 4); only the heading changes |
| GuardWalk.Guard.TurnLeft | 2024/06_2024/solution.py:65-69 | the new heading is turnCount quarter turns counter-clockwise (index (i - k) mod 4); only the heading changes |
| GuardWalk.Guard.ShoulderCheckRight | 2024/06_2024/solution.py:59-63 | the heading turnCount right turns away, read without changing the guard |
| GuardWalk.Guard.ShoulderCheckLeft | 2024/06_2024/solution.py:71-75 | the heading turnCount left turns away, read without changing the guard |
| GuardWalk.Guard.Step | 2024/06_2024/solution.py:77-88 | moves `steps` cells along the heading (North row-1, East col+1, South row+1, West col-1); heading and board are untouched |
| GuardWalk.StepAroundSquare | 2024/06_2024/solution.py:203-216 | stepping North, East, South, West with a right turn between steps brings the guard back to its start |
| GuardWalk.Guard.InBounds | 2024/06_2024/solution.py:133-134 | on a rectangular board, the width test against row 0 is the same as "(r, c) is a cell of the board" |
| GuardWalk.Look | 2024/06_2024/solution.py:90-125 | the look around as a value: a Clear answer names a turn count from `turnCount` up to 3 |
| GuardWalk.LookClear | 2024/06_2024/solution.py:119-125 | Clear(k) names an open cell k right turns away, and every heading probed before it was blocked |
| GuardWalk.LookExit | 2024/06_2024/solution.py:119-120 | Exit means some heading's cell ahead is off the board and every heading probed before it was blocked |
| GuardWalk.LookEnclosed | 2024/06_2024/solution.py:98-101 | the MapError outcome holds exactly when the cells ahead in all remaining headings are blocked |
| GuardWalk.Guard.Peek | 2024/06_2024/solution.py:90-125 | probing headings in turn order on the guard's board gives the same answer as Look on the guard's state |
| GuardWalk.PeekTurnsTwice | 2024/06_2024/solution.py:257-264 | blocked ahead and to the right: two turns |
| GuardWalk.PeekTurnsThrice | 2024/06_2024/solution.py:266-273 | blocked on three sides: three turns |
| GuardWalk.PeekEnclosed | 2024/06_2024/solution.py:275-283 | blocked on all four sides: the MapError outcome |
| GuardWalk.Guard.IsCellNew | 2024/06_2024/solution.py:127-128 | a cell is new exactly when marking it raises the visited count by one |
| GuardWalk.Guard.Mark | 2024/06_2024/solution.py:130-131 | the board afterwards is the old board with that one cell set to 'x' |
| GuardWalk.MarkCellCount | 2024/06_2024/solution.py:127-131 | marking raises the visited count by one for an unvisited cell and by nothing for a visited one |
| GuardWalk.MarkTwice | 2024/06_2024/solution.py:130-131 | marking is idempotent, on the board and on the count |
| GuardWalk.MarkCell | 2024/06_2024/solution.py:130-131 | only the marked cell changes, and it becomes 'x' |
| GuardWalk.TrailMark | 2024/06_2024/solution.py:139-142 | marking the open cell the guard stands on keeps the board a trail of the starting board: only open cells are ever turned into 'x' |
| GuardWalk.CountVisitedBound | 2024/06_2024/solution.py:136-147 | a board never holds more visited cells than rows × columns |
| GuardWalk.Visit | 2024/06_2024/solution.py:139-142 | marking the cell the guard stands on, if new, keeps it on a rectangular board |
| GuardWalk.Advance | 2024/06_2024/solution.py:148-149 | turning to an open heading and stepping once lands on an on-board cell that is not '#', with the board unchanged |
| GuardWalk.Guard.TurnAndStep | 2024/06_2024/solution.py:148-149 | the guard's new state is Advance of its old state toward the heading `turnCount` right turns away |
| GuardWalk.Tick | 2024/06_2024/solution.py:138-149 | one pass of the loop as a value: mark, look, then exit, raise MapError or turn and step; the walker stays on the board |
| GuardWalk.TickCounts | 2024/06_2024/solution.py:139-142 | a pass adds one to the count exactly when the cell was new, and the visited count grows by the same amount |
| GuardWalk.TickTrail | 2024/06_2024/solution.py:139-149 | a pass marks only the open cell the guard stands on and moves only onto a cell that is not '#' |
| GuardWalk.TickEnds | 2024/06_2024/solution.py:98-101 | a pass stops the march only by exiting, with the count, from a visited cell whose look is Exit, or by MapError, when the look is Enclosed |
| GuardWalk.Guard.March | 2024/06_2024/solution.py:136-149 | the outcome and the guard's final state are exactly Run from the guard's starting state with the count at 0 |
| GuardWalk.RunStaysOnTrail | 2024/06_2024/solution.py:136-149 | throughout the march the guard stands on cells that are not '#', and the only cells changed are open cells turned into 'x' |
| GuardWalk.RunCounts | 2024/06_2024/solution.py:136-142 | the count never exceeds the limit, and the count returned on exit is the number of cells newly marked |
| GuardWalk.RunReachesLimit | 2024/06_2024/solution.py:136-137 | stopping at the limit means exactly `limit` cells were newly marked |
| GuardWalk.RunCountsFirstCell | 2024/06_2024/solution.py:139-141 | a march starting on an unvisited cell returns at least 1 on exit |
| GuardWalk.RunEnds | 2024/06_2024/solution.py:145-147 | Exited leaves the guard on a visited cell whose look around (Look == Exit) reaches an off-board cell after blocked ones, without turning toward it; MapError leaves it with all four cells ahead blocked |
| GuardWalk.RunFitsBoard | 2024/06_2024/solution.py:136-147 | the count returned on exit is at most rows × columns |
| GuardWalk.RunMoreFuel | 2024/06_2024/solution.py:136-149 | the tick bound only cuts a march short: one that ended within it ends the same way with a larger bound |
| PageOrdering.ChildrenFor | 2024/05_2024/solution.py:62-65 | the rule list of a page, and the empty list for a page without rules |
| PageOrdering.Node.constructor | 2024/05_2024/solution.py:4-8 | a new node holds its page and rule list and has no subtrees |
| PageOrdering.Node.IsThisMyChild | 2024/05_2024/solution.py:13-14 | true exactly when the page is in the node's rule list |
| PageOrdering.Node.Add | 2024/05_2024/solution.py:16-26 | the linked tree after filing is the one Insert gives on the old tree, holding the new node; when no rule applies (ValueError) nothing changes |
| PageOrdering.Node.AddBefore | 2024/05_2024/solution.py:28-32 | fills an empty before slot, or delegates to the before subtree, with the same result as Insert |
| PageOrdering.Node.AddAfter | 2024/05_2024/solution.py:34-38 | fills an empty after slot, or delegates to the after subtree, with the same result as Insert |
| PageOrdering.Node.WalkInOrder | 2024/05_2024/solution.py:40-45 | yields the in-order walk of the tree the nodes form: before subtree, node, after subtree |
| PageOrdering.InsertKeepsPages | 2024/05_2024/solution.py:28-38 | filing a page adds exactly that page to the walk and drops none |
| PageOrdering.InsertAddsNode | 2024/05_2024/solution.py:28-38 | filing a page adds its node to the tree and keeps every node filed before |
| PageOrdering.InsertPlaced | 2024/05_2024/solution.py:16-26 | filing keeps every node on the side the rules demand: after a node only pages its rules name, before it only pages whose rules name it |
| PageOrdering.InsertAtEnd | 2024/05_2024/solution.py:16-26 | a page that every node's rules name lands at the end of the walk |
| PageOrdering.BuildKeepsPages | 2024/05_2024/solution.py:67-73 | the tree built from a line holds exactly its pages, each with its own rule list |
| PageOrdering.BuildPlaced | 2024/05_2024/solution.py:67-73 | every tree built from a line satisfies the placement invariant |
| PageOrdering.BuildStopsOnRefusal | 2024/05_2024/solution.py:71-73 | once one page is refused, the whole line is refused |
| PageOrdering.SortLineSpec | 2024/05_2024/solution.py:67-74 | the sorted line is a permutation of the input line: same length, same pages with multiplicity |
| PageOrdering.OrderedLineUnchanged | 2024/05_2024/solution.py:149-158 | a line in which each page's rules name every later page comes back unchanged |
| PageOrdering.SortLine | 2024/05_2024/solution.py:67-74 | building the linked tree node by node and walking it gives SortLineSpec, and None when a page is refused |
| PageOrdering.LowerMiddle | 2024/05_2024/solution.py:79-84 | both branches pick the lower middle page, index (len - 1) / 2 |
| PageOrdering.ComputeMedianSum | 2024/05_2024/solution.py:76-85 | the sum of the middle page of each line, the lower middle one for even lengths |
| PageOrdering.MedianSumExample | 2024/05_2024/solution.py:207-214 | the source's three lines sum to 143 |
| PageOrdering.SplitRefuses | 2024/05_2024/solution.py:91-96 | the split fails exactly when some line's outcome is a refusal |
| PageOrdering.SplitUnchanged | 2024/05_2024/solution.py:93-94 | the first list holds only lines whose sorted form is the line itself |
| PageOrdering.SplitCorrected | 2024/05_2024/solution.py:95-96 | the second list holds only sorted forms that differ from their lines |
| PageOrdering.Split | 2024/05_2024/solution.py:91-96 | the two lists together are as long as the input; SplitCounts pins each list's contents |
| PageOrdering.SplitCounts | 2024/05_2024/solution.py:91-96 | every line is filed exactly once: the first list holds x once per line that is x with outcome x, the second once per line other than x with outcome x |
| PageOrdering.PartitionRefuses | 2024/05_2024/solution.py:91-96 | splitting the updates fails exactly when some line is refused by the tree |
| PageOrdering.PartitionUnchanged | 2024/05_2024/solution.py:93-94 | every unchanged line is an input line that sorting leaves as it is |
| PageOrdering.PartitionCorrected | 2024/05_2024/solution.py:95-96 | every corrected line is the sorted form of an input line it differs from |
| PageOrdering.SplitCovers | 2024/05_2024/solution.py:91-96 | given each line's outcome, every line lands in the first list if its outcome is itself and otherwise in the second |
| PageOrdering.PartitionCountsUnchanged | 2024/05_2024/solution.py:91-94 | the unchanged list holds x exactly as many times as there are input lines equal to x that sorting leaves as they are |
| PageOrdering.PartitionCountsCorrected | 2024/05_2024/solution.py:91-96 | the corrected list holds x exactly as many times as there are input lines, other than x, that sort to x |
| PageOrdering.PartitionCovers | 2024/05_2024/solution.py:91-96 | every input line is sorted and filed: as it is in the first list when sorting leaves it unchanged, and its sorted form in the second otherwise |
| PageOrdering.PartitionNonEmpty | 2024/05_2024/solution.py:97-98 | with non-empty input lines, both lists hold only non-empty lines, so their medians exist |
| PageOrdering.SplitUpdates | 2024/05_2024/solution.py:89-96 | the loop's two lists are the split of the sorted lines, or None when a line is refused |
| PageOrdering.SortUpdatePages | 2024/05_2024/solution.py:87-99 | returns the median sums of the unchanged and of the corrected lines, or None exactly when a line is refused |
| WordSearch.GuardIsInside | 2024/04_2024/solution.py:1-63 | from a cell of the board, each checker's guard passes exactly when all wln cells along its direction lie on the board |
| WordSearch.Check | 2024/04_2024/solution.py:1-63 | a checker returns 1 exactly when the run fits on the board and the cells 1..wln-1 along the direction hold word[1..]; word[0] is not compared |
| WordSearch.HitCount | 2024/04_2024/solution.py:109-110 | the number of directions that hit is at most the number of directions tried |
| WordSearch.SingleScore | 2024/04_2024/solution.py:104-111 | a cell scores at most 8 for a single word |
| WordSearch.CheckSingle | 2024/04_2024/solution.py:104-111 | adds the eight checkers' results: the number of directions along which the word fits and matches |
| WordSearch.HitCountAllHit | 2024/04_2024/solution.py:104-111 | when every direction hits, the count is the number of directions |
| WordSearch.HitCountNoneHit | 2024/04_2024/solution.py:104-111 | when no direction hits, the count is 0 |
| WordSearch.OneLetterWordCountsEight | 2024/04_2024/solution.py:104-111 | a one-letter word is found eight times at every cell |
| WordSearch.TooLongWordScoresZero | 2024/04_2024/solution.py:104-111 | a word longer than both sides of the board scores 0 |
| WordSearch.CheckCandidates | 2024/04_2024/solution.py:65-70 | the postfix when the prefix matches along the direction, else the prefix when the postfix matches, else None |
| WordSearch.Prefix | 2024/04_2024/solution.py:76 | the reversed first wln letters, wln = len // 2 + 1, cut to the word's length |
| WordSearch.Postfix | 2024/04_2024/solution.py:77 | the last wln letters, or the whole word when it is shorter |
| WordSearch.HalvesOfOddWord | 2024/04_2024/solution.py:75-77 | for an odd-length word, prefix[i] and postfix[i] are the letters i before and i after the middle |
| WordSearch.CrossScore | 2024/04_2024/solution.py:72-91 | a pivot scores at most 1 |
| WordSearch.CheckCross | 2024/04_2024/solution.py:72-91 | returns the cross score of the pivot: the up-left and up-right candidates, then both lower branches confirmed |
| WordSearch.CandidateReads | 2024/04_2024/solution.py:65-70 | for an odd word, the candidate along an upper diagonal exists and matches down the opposite diagonal exactly when the diagonal reads the word through the pivot, in either orientation |
| WordSearch.CrossOfOddWord | 2024/04_2024/solution.py:72-91 | for an odd word, the pivot scores 1 exactly when both diagonals through it read the word, each in either orientation |
| WordSearch.Score | 2024/04_2024/solution.py:118 | a cell scores at most 8 with the single matcher and at most 1 with the cross matcher |
| WordSearch.Apply | 2024/04_2024/solution.py:118 | runs the matcher handed to _wc and returns its score for the cell |
| WordSearch.Wc | 2024/04_2024/solution.py:113-120 | the sum of the matcher's score over exactly the cells holding word[idx], row by row |
| WordSearch.RowTotalBound | 2024/04_2024/solution.py:116-119 | a row adds at most the per-cell maximum times the number of its cells holding word[idx] |
| WordSearch.TotalBound | 2024/04_2024/solution.py:113-120 | the count is at most the per-cell maximum times the number of cells holding word[idx] |
| WordSearch.SingleRowCorner | 2024/04_2024/solution.py:104-111 | on the one-row board "XMAS", only the rightward reading from the first cell fits |
| WordSearch.SingleRowExample | 2024/04_2024/solution.py:113-120 | "XMAS" on a one-row board is found once |
| WordSearch.CrossCentre | 2024/04_2024/solution.py:72-91 | on a 3-by-3 board with "MAS" on both diagonals, the centre scores 1 |
| WordSearch.CrossCentreReads | 2024/04_2024/solution.py:72-91 | both diagonals of that board read "MAS" through the centre |
| WordSearch.CrossExample | 2024/04_2024/solution.py:113-120 | the cross count of that board is 1 |
| Reports.Remove | 2024/02_2024/solution.py:26-27 | popping index i shifts the later levels down by one |
| Reports.ValidateExact | 2024/02_2024/solution.py:12-20 | an empty report is unsafe, a one-level report raises IndexError, and otherwise the result is true exactly when the report rises or falls by 1 to 3 at every step |
| Reports.ValidateTolerant | 2024/02_2024/solution.py:22-30 | true exactly when the report is safe or safe after popping one level; it raises exactly for one-level reports and unsafe two-level ones |
| Reports.SignTestAgrees | 2024/02_2024/solution.py:15-20 | the source's test (non-zero step, same sign as the first step, size at most 3) is the same as "all rising or all falling by 1 to 3" |
| Reports.ExactImpliesTolerant | 2024/02_2024/solution.py:23-24 | whatever the exact check accepts, the tolerant one accepts |
| Reports.TrimEndsStaysSafe | 2024/02_2024/solution.py:25-30 | popping the first or the last level of a safe report of three or more levels leaves it safe |
| Reports.RescuedByRemoval | 2024/02_2024/solution.py:25-30 | a report of three or more levels that one pop makes safe passes the tolerant check |
| Reports.Count | 2024/02_2024/solution.py:32-38 | the count raises exactly when some report raises, and otherwise is at most the number of reports |
| Reports.Apply | 2024/02_2024/solution.py:36 | running the chosen validator gives its verdict |
| Reports.SafetyCheck | 2024/02_2024/solution.py:32-38 | the loop's count is the number of reports judged safe, or the error of a report that raises |
| Reports.ExactCountAtMostTolerant | 2024/02_2024/solution.py:32-38 | where the tolerant count exists, the exact count exists and is no larger |
| Reports.ExactExamplesRejected | 2024/02_2024/solution.py:54-60 | the source's three failing reports and the empty report are unsafe |
| Reports.ExactExamplesAccepted | 2024/02_2024/solution.py:58-59 | the source's two passing reports are safe |
| Reports.TolerantExampleRemoveMiddle | 2024/02_2024/solution.py:64 | [1, 3, 5, 4, 7] passes once the 4 is popped |
| Reports.TolerantExampleRemoveFirst | 2024/02_2024/solution.py:68 | [8, 9, 8, 6, 5] passes once the first 8 is popped |
| Reports.RejectedWithout | 2024/02_2024/solution.py:71 | no single pop makes [1, 2, 3, 3, 9] safe |
| Reports.TolerantExampleRejected | 2024/02_2024/solution.py:71 | [1, 2, 3, 3, 9] fails the tolerant check |
| ListDistance.Insert | 2024/01_2024/solution.py:16-17 | inserting into a sorted list gives a sorted list with one more occurrence of the new id |
| ListDistance.Sort | 2024/01_2024/solution.py:16-17 | the result is a sorted permutation of the input |
| ListDistance.SortedUnique | 2024/01_2024/solution.py:16-17 | two sorted lists with the same elements are equal, so the sorted permutation is unique |
| ListDistance.SortIgnoresOrder | 2024/01_2024/solution.py:16-17 | sorting depends only on the elements, not on their initial order |
| ListDistance.PairDistance | 2024/01_2024/solution.py:19-20 | the summed distance of paired entries is non-negative |
| ListDistance.Distance | 2024/01_2024/solution.py:16-21 | the total distance of the sorted columns is non-negative |
| ListDistance.SumOfDistances | 2024/01_2024/solution.py:19-21 | summing the list of pairwise distances gives the pairwise total |
| ListDistance.DistanceIgnoresOrder | 2024/01_2024/solution.py:16-21 | reordering either column does not change the total distance |
| ListDistance.PairDistances | 2024/01_2024/solution.py:18-20 | one entry per left index, each the distance of that pair, summing to the pairwise total |
| ListDistance.Sink.constructor | 2024/01_2024/solution.py:5 | a new sink holds the two columns and no distances |
| ListDistance.Sink.DistFn | 2024/01_2024/solution.py:15-22 | both columns become their sorted permutations in place, dists holds one distance per pair, and the answer is their sum, the total distance of the original columns |
| ListDistance.TermAdd | 2024/01_2024/solution.py:30 | one more occurrence of y on the right adds y to y's term and nothing to any other id's |
| ListDistance.WeightedRemove | 2024/01_2024/solution.py:27-30 | the weighted sum over a set of ids may take its ids in any order |
| ListDistance.WeightedAdd | 2024/01_2024/solution.py:26-30 | one more occurrence of y on the right adds y to the score when y is a left id, and nothing otherwise |
| ListDistance.ZeroCounts | 2024/01_2024/solution.py:28-29 | ids that never occur in the right column contribute nothing to the score |
| ListDistance.SimilarityIsMatchedSum | 2024/01_2024/solution.py:24-31 | the score over distinct left ids equals the sum of the right entries that also occur on the left |
| ListDistance.RepeatedLeftId | 2024/01_2024/solution.py:27 | a repeated left id adds nothing the second time |
| ListDistance.Sink.SimScoreFn | 2024/01_2024/solution.py:24-31 | returns the sum over distinct left ids n of n × (occurrences of n on the right), and changes neither column |
| ListDistance.ExampleSimilarity | 2024/01_2024/solution.py:64-74 | the source's example scores 57702 |

## Left out

- File loading and the drivers (`get_data`, `_get_data`, `calculate`, `safety_check`'s file read, `map_route`, `main`, the `__main__` blocks) are I/O. Every modelled operation takes its parsed input as a parameter.
- The live terminal display of day 6 (`_create_display_window`, `_print_display_window`, the `display` flag and `sys.argv`) is screen output and a sleep; `March` has no display parameter.
- Day 3 is not part of this model. It is a thin wrapper over Python's regular-expression engine.
- GuardWalk.Guard.March: takes an extra `fuel` bound on the number of ticks, with its own `OutOfFuel` outcome. The source's loop is bounded only by the number of distinct cells, so a guard circling over visited cells never stops, and termination is not claimed. `RunMoreFuel` shows the bound only cuts a march short and never changes how a finished march ends.
- GuardWalk.Guard.Create: requires a rectangular board, because the source takes the width of every row from row 0.
- GuardWalk.Guard.March: the full 10-by-10 example walk of 41 cells is not proved, because unfolding that many passes of Run exceeds the verifier's resource budget.
- GuardWalk.Guard.Mark: the guard holds the board as a value. The source keeps the caller's board by reference and writes 'x' into it in place; no caller reads that board after the march.
- GuardWalk.Guard.March: the source's default arguments (`turn_count=1` and `steps=1` for turning and stepping, `limit=10000` for the march) are not modelled as defaults; the model takes every argument explicitly, so a default call is the call with that value and no behaviour is lost.
- GuardWalk.Guard.Step: the `ValueError` for a heading outside the four is left out, because the heading type has only the four values.
- PageOrdering.Node.Add: the `line_number` parameter only feeds the ValueError's message and is dropped. The ValueError itself is `ok == false` with the tree unchanged, which matches the source, where the check comes before any assignment.
- PageOrdering.SortLine: requires a non-empty line; the source raises IndexError on an empty one.
- PageOrdering.SortUpdatePages: requires every line to be non-empty, which parsed update lines always are. The progress `print` for even-length lines in `_compute_median_sum` is output and is left out.
- ListDistance.Sink.DistFn: requires the right column to be at least as long as the left one, where the source would raise IndexError.
- ListDistance.Sink.DistFn: the example total of the five-entry columns is not proved, because evaluating the in-place sorts on those columns exceeds the verifier's resource budget.
- ListDistance.Sort: `list.sort` is modelled as an insertion sort, which is its specification (the sorted permutation); Python's own sorting algorithm is not modelled.
- ListDistance.Sink.SimScoreFn: `Counter` and `set` are modelled as a multiset count and the set of distinct ids; the order in which the set is visited is left open.
- WordSearch.Check: the eight checker functions are one method over a `Direction` value. Their guards are kept exactly as written, one per direction.
- WordSearch.Check: requires `wln <= len(word)` or `wln <= 1`. Both call sites meet it. Beyond it the source returns 0 when the bounds guard fails or an earlier letter mismatches, and raises IndexError only once letters 1 to len(word) - 1 all match and the loop reaches word[len(word)].
- WordSearch.Wc: requires a rectangular board and a non-negative `idx` within the word. Python's negative indexing is not modelled.
- WordSearch.Wc: the 10-by-10 examples (18 for XMAS, 9 for the MAS cross) are not proved, because evaluating the matchers over a hundred cells exceeds the verifier's resource budget. Small boards stand in for them.
- Reports.ValidateTolerant: the source pops from a copy, so the caller's list is unchanged. Dafny sequences are values, so this holds without a statement of its own.
