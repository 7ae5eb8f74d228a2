# TRIO-Math puzzle engine in Dafny

TRIO-Math is a browser puzzle on a 5×5 grid of numbers. The player picks three
cells and an operator, and wins when `(a × b) + c` or `(a × b) − c` equals the
target. Everything below is modelled on `script.js`:

- the board generator, `generateNumbersWithAtLeastSixSolutions`, with its
  helpers:
  - `findPossibleTriplets`
  - `getAllAlignedLines`
  - `shuffleArray`
  - `getRandomInt`
- the solver, `findAllSolutions`;
- the game state and its handlers:
  - `selectCell`
  - `selectOperator`
  - `performCalculation`
  - `clearSelection`
  - `resetGame`
  - the mode selector.

Modules, in dependency order:

- `Base` — `Option` and duplicate-free sequences.
- `Random` — `getRandomInt`. `Math.random` is an injected stream of reals in
  [0, 1), read through a `RandomSource` object whose position advances by one
  with each draw.
- `Shuffle` — the in-place Fisher–Yates `shuffleArray`. It works on an `array`
  and is proved equal to a pure function `Shuffled`. That function is a
  permutation of its input.
- `Lines` — `getAllAlignedLines`. The 48 lines are proved to be exactly the
  geometric lines of three consecutive cells (horizontal, vertical or either
  diagonal), and pairwise different.
- `Triplets` — `findPossibleTriplets`. The nested loops and the `seen`-set
  filter are proved equal to pure definitions. Those definitions are shown
  sound and complete for the equation within the search bounds, and sorted in
  loop order, so the filter removes nothing.
- `Solutions` — `findAllSolutions`. Its result is proved to hold exactly the
  (line, operator) pairs whose equation holds, in line order with `+` before
  `−`.
- `Generator` — the generator itself, on an `array` board. The greedy
  placement loop, the filling loop and the final shuffle are each proved equal
  to a pure stage of `Generate`. Lemmas about `Generate` state what a board
  guarantees:
  - the placements use each line once;
  - every placed line holds its triplet until the final shuffle;
  - every cell is at least 1;
  - the board is a permutation of the filled board.
- `Game` — the module-level state (`target`, `numbers`, `selectedCells`,
  `selectedOperator`, `currentMode`) as the class `Session`, with the
  handlers as methods.

Behaviour of the code worth noting:

- `performCalculation` keeps the selection and the operator. Only a new game
  clears them.
- After 1000 failed attempts, `resetGame` leaves `numbers` empty. It does not
  keep the last board.
- `performCalculation` does not check that the three cells are aligned.
  `UnalignedSelectionCanWin` exhibits an accepted unaligned selection.
- Only the modes `normal` and `facile` draw a target. Any other value of
  the mode selector keeps the previous target, and there is no hard mode.

## Model

| member | source | states |
|---|---|---|
| Random.GetRandomInt | script.js:375-377 | the draw maps to an integer of [min, max] |
| Random.GetRandomIntOnto | script.js:375-377 | every integer of [min, max] is produced by some draw |
| Random.RandomSource.Next | script.js:375-377 | one call consumes exactly one draw and returns getRandomInt of it |
| Shuffle.Swap | script.js:387 | the destructuring swap exchanges positions i and j, keeps the others, and is a permutation |
| Shuffle.ShuffleFrom | script.js:385-388 | the rest of the shuffle from cursor i is a permutation, never moves elements above i, and consumes i draws |
| Shuffle.Shuffled | script.js:384-390 | the whole shuffle: from the last index down to 1, one draw per index; ShuffledIsPermutation states its properties |
| Shuffle.ShuffledIsPermutation | script.js:384-390 | shuffleArray returns a permutation with the same elements and consumes length − 1 draws |
| Shuffle.SwapElements | script.js:387 | the array after the swap is Swap of the old contents |
| Shuffle.ShuffleStep | script.js:385-388 | one iteration draws j in [0, i], swaps a[i] and a[j], and leaves the rest of the shuffle from i − 1 |
| Shuffle.ShuffleArray | script.js:384-390 | the in-place loop leaves the array and the draw position equal to Shuffled of the old contents, a permutation |
| Lines.Step | script.js:441-486 | consecutive cells of a line differ by 1, 5, 6 or −4 according to the direction |
| Lines.Family | script.js:441-486 | each pair of loops pushes 15 (rows, columns) or 9 (diagonals) lines |
| Lines.AlignedLines | script.js:437-489 | getAllAlignedLines returns 48 lines |
| Lines.LineShape | script.js:443-483 | a line along a direction has three different cells of the grid with the direction's constant step |
| Lines.FamilyAt | script.js:441-486 | the k-th pushed line of a family starts at the cell of the loop counters of iteration k |
| Lines.FamilySound | script.js:441-486 | every pushed line goes along its family's direction without wrapping round an edge |
| Lines.FamilyComplete | script.js:441-486 | every line of three consecutive cells along a direction is pushed |
| Lines.FamilyIff | script.js:441-486 | a family holds exactly the lines along its direction |
| Lines.AlignedLinesIff | script.js:437-489 | a line is returned exactly when it is three consecutive cells in a row, a column or a diagonal |
| Lines.AlignedLinesInGrid | script.js:437-489 | every returned index lies in 0..24 |
| Lines.FamilyDistinct | script.js:441-486 | no family pushes the same line twice |
| Lines.FamiliesDisjoint | script.js:441-486 | no line is pushed by two families |
| Lines.AlignedLinesDistinct | script.js:437-489 | the 48 lines are pairwise different |
| Lines.GetAllAlignedLines | script.js:437-489 | the four loop pairs return AlignedLines(), 48 lines |
| Lines.PushHorizontal | script.js:441-450 | the horizontal loops append the horizontal family in loop order |
| Lines.PushVertical | script.js:453-462 | the vertical loops append the vertical family in loop order |
| Lines.PushDescending | script.js:465-474 | the descending-diagonal loops append that family in loop order |
| Lines.PushAscending | script.js:477-486 | the ascending-diagonal loops append that family in loop order |
| Triplets.ISqrt | script.js:399 | floor of the square root: r² ≤ n < (r + 1)² |
| Triplets.MaxA | script.js:399 | the bound of the outer loop, with the NaN square root of a negative target + 50 read as 0; MaxABounds states its value |
| Triplets.MaxABounds | script.js:399 | maxA is floor(sqrt(target + 50)), and 0 when target + 50 is negative (NaN square root, so the loop never runs) |
| Triplets.MaxB | script.js:400 | maxB is floor(target / 2): 2·maxB ≤ target < 2·maxB + 2 |
| Triplets.Candidates | script.js:405-414 | one (a, b) pushes at most two triplets, both with that a and b and c in 1..50; CandidatesFacts states which |
| Triplets.ForA | script.js:403-415 | the inner loop for one a, b from 1 to n; its contents are stated by ForAMembers, ForABounds and ForAOrdered |
| Triplets.Raw | script.js:402-416 | the two nested loops before the duplicate filter; its contents are stated by RawMembers, RawBounds and RawOrdered |
| Triplets.PossibleTriplets | script.js:397-431 | the result of findPossibleTriplets, the filtered nested loops; PossibleTripletsIff and PossibleTripletsOrdered state its contents |
| Triplets.Dedup | script.js:419-430 | the duplicate filter keeps every element and returns no element twice |
| Triplets.OrderedConcat | script.js:402-416 | two loop-ordered runs, the first wholly before the second, concatenate in loop order |
| Triplets.OrderedIsDistinct | script.js:402-416 | a list in strict loop order holds no triplet twice |
| Triplets.DedupOfDistinct | script.js:419-430 | on a duplicate-free list the filter is the identity |
| Triplets.CandidatesFacts | script.js:403-415 | one (a, b) pushes exactly the in-range c's that satisfy the equation, '+' before '−' |
| Triplets.ForAMembers | script.js:403-415 | the inner loop for a pushes exactly the solutions with that a, b in 1..n and c in 1..50 |
| Triplets.ForABounds | script.js:403-415 | every triplet of the inner loop for a has that a and b in 1..n |
| Triplets.ForAOrdered | script.js:403-415 | the inner loop pushes in order of b, '+' before '−' |
| Triplets.RawBounds | script.js:402-416 | every triplet of the nested loops has a in 1..maxA |
| Triplets.RawMembers | script.js:402-416 | the nested loops push exactly the solutions within the bounds |
| Triplets.RawOrdered | script.js:402-416 | the nested loops push in loop order: a, then b, then '+' before '−' |
| Triplets.PossibleTripletsIff | script.js:397-431 | a triplet is returned exactly when a ≤ floor(sqrt(target + 50)), b ≤ floor(target / 2), c in 1..50 and the equation holds |
| Triplets.PossibleTripletsOrdered | script.js:397-431 | the result is in loop order, duplicate-free, and equal to the unfiltered list |
| Triplets.PossibleTripletsPositive | script.js:397-431 | every returned a, b, c is at least 1 and c is at most 50 |
| Triplets.SearchRow | script.js:403-415 | the inner loop for one a appends ForA for b in 1..maxB |
| Triplets.PushCandidates | script.js:405-414 | one inner-loop iteration appends the '+' candidate, then the '−' candidate, when c is in 1..50 |
| Triplets.SearchTriplets | script.js:398-416 | the nested loops produce Raw for a in 1..maxA |
| Triplets.RemoveDuplicates | script.js:419-430 | the `seen`-set loop returns Dedup of its input |
| Triplets.FindPossibleTriplets | script.js:397-431 | returns PossibleTriplets(target), hence exactly the bounded solutions of the equation |
| Solutions.SolutionsOverIff | script.js:107-135 | a solution is reported exactly when its line is scanned and its equation holds on the board |
| Solutions.AllSolutionsIff | script.js:107-135 | findAllSolutions reports (line, op) exactly when the line is one of the 48 and (a × b) op c equals the target |
| Solutions.IndexOf | script.js:111 | the first position of a line in the scanned list |
| Solutions.IndexOfPrefix | script.js:111 | a line's first position does not change when the list is extended |
| Solutions.InPrefix | script.js:111 | a line of a prefix is in the whole list |
| Solutions.SolutionsOnLines | script.js:107-135 | every reported solution lies on a scanned line |
| Solutions.PrefixOrderLifts | script.js:111 | solutions in line order along a prefix stay in order along the whole list |
| Solutions.SolutionsInLineOrder | script.js:107-135 | solutions come in the order of their lines, '+' before '−' on the same line |
| Solutions.NoSolutionsOnEmptyBoard | script.js:113-115 | on the emptied board `numbers = []` nothing is reported |
| Solutions.FindAllSolutions | script.js:107-135 | the scan returns AllSolutions of the board |
| Solutions.CheckLine | script.js:112-132 | one line contributes (line, '+') then (line, '−') when the equation holds, and nothing when a cell is missing |
| Solutions.LineSolutions | script.js:112-132 | one line contributes exactly the solutions on that line whose equation holds |
| Solutions.SolutionsOver | script.js:111-132 | the scan over a list of lines in order; SolutionsOverIff and SolutionsInLineOrder state its contents |
| Solutions.AllSolutions | script.js:107-135 | the result of findAllSolutions, the scan over the 48 lines; AllSolutionsIff states its contents |
| Generator.WriteLine | script.js:75-79 | writing a line keeps a 25-cell board |
| Generator.WriteUpTo | script.js:75-79 | the first n writes of the assignment loop keep a 25-cell board; AssignLine is proved against it |
| Generator.TryPlace | script.js:55-86 | one iteration keeps a 25-cell board |
| Generator.PlaceFrom | script.js:54-88 | the greedy loop keeps a 25-cell board |
| Generator.FillFrom | script.js:91-95 | filling keeps non-empty cells and puts 1..10 into every cell at 0 |
| Generator.EmptyBoard | script.js:31 | the reset board has 25 cells at 0 |
| Generator.WriteLineFacts | script.js:75-79 | writing a line sets its three cells to a, b, c and changes no other cell |
| Generator.NoConflictAgrees | script.js:61-79 | a placement without conflict never overwrites a non-empty cell |
| Generator.TryPlaceKeeps | script.js:55-86 | one iteration keeps the placement invariant, keeps set cells and records at most one placement |
| Generator.PlaceFromKeeps | script.js:54-88 | the greedy loop keeps the invariant; placements are bounded by the remaining triplets and lines |
| Generator.Conflicts | script.js:61-71 | a conflict is some cell of the line holding a non-zero value different from the triplet's; CheckConflict is proved against it |
| Generator.TryPlaceFreeLine | script.js:59-83 | the greedy step with the `assignedLines` test dropped keeps a 25-cell board |
| Generator.PlaceFromFreeLines | script.js:54-88 | the greedy loop built from that step keeps a 25-cell board |
| Generator.AssignedTestPasses | script.js:59 | on duplicate-free lines the `assignedLines` test never rejects a line, so the loop equals the one without it |
| Generator.GeneratorAssignedTestPasses | script.js:44-88 | in the generator the shuffled lines are distinct, so the `assignedLines` test is always true |
| Generator.ShuffledLists | script.js:34-48 | the triplets are shuffled first, then the 48 lines, and every shuffled line is inside the grid; ShuffledInputs states the rest |
| Generator.Generate | script.js:28-100 | one run of the generator: placement, filling and final shuffle, with the draw position; GeneratePlacements, GenerateFilled and GenerateBoard state its properties |
| Generator.AlignedLinesProper | script.js:437-489 | every enumerated line has three different grid cells |
| Generator.ShuffledInputs | script.js:34-48 | the shuffled lists are permutations of all triplets and all 48 lines, with positive values and proper lines |
| Generator.PlaceFromEmpty | script.js:31-88 | the greedy phase from the empty board meets the invariant, with at most min(triplets, lines) placements |
| Generator.FillKeeps | script.js:91-95 | filling keeps set cells, fills 1..10, and leaves every cell at least 1 |
| Generator.AgreesKeepsHolds | script.js:91-95 | a placed line keeps its triplet when only empty cells change |
| Generator.GeneratePlacements | script.js:28-100 | at most the desired count, triplets and 48 placements; every placement is a triplet of the target on its own aligned line, holding a, b, c after placement and filling |
| Generator.GenerateFilled | script.js:90-95 | the filled board keeps the placed values, fills 1..10 and has every cell at least 1 |
| Generator.ShuffledBoardKeeps | script.js:98 | shuffling a positive 25-cell board gives a positive permutation of it |
| Generator.GenerateBoard | script.js:90-98 | the returned board has 25 cells, all at least 1, a permutation of the filled board |
| Generator.GeneratedBoardFacts | script.js:28-100 | the board has 25 positive cells and the count is at most the desired count and 48 |
| Generator.PlacedSolutionsAreFound | script.js:28-135 | before the final shuffle, every placement is a solution findAllSolutions reports |
| Generator.CopyToArray | script.js:44-48 | the spread copy `[...s]` is a fresh array with the same contents |
| Generator.CheckConflict | script.js:61-71 | the conflict loop finds a conflict exactly when a line cell holds a different non-zero value |
| Generator.AssignLine | script.js:75-79 | the assignment loop writes a, b, c into the line |
| Generator.PlaceTriplets | script.js:50-88 | the greedy loop leaves the board and the placements of PlaceFrom |
| Generator.FillEmptyCells | script.js:90-95 | the filling loop leaves the board and draw position of FillFrom |
| Generator.ShuffleInputs | script.js:34-48 | the shuffled copies of all triplets and all lines are those of ShuffledLists |
| Generator.GenerateNumbers | script.js:28-101 | returns a fresh 25-cell board, the count and the draw position of Generate |
| Game.Without | script.js:160 | the filter drops exactly the occurrences of x and keeps a duplicate-free list duplicate-free, one shorter |
| Game.WithoutRemovesPosition | script.js:160 | in a duplicate-free selection the filter removes exactly that position |
| Game.WithoutIsFilter | script.js:160 | removing a last, unique element gives the prefix |
| Game.Toggle | script.js:160-168 | a selected cell is deselected, a new one appended to fewer than three, a fourth ignored; a well-formed selection stays well formed |
| Game.ToggleTwiceRestores | script.js:160-168 | selecting a new cell and clicking it again leaves the selection as it was |
| Game.ToggleTwiceKeepsCells | script.js:160-168 | deselecting and reselecting a cell keeps the selected set |
| Game.Evaluate | script.js:234-256 | an attempt is correct exactly when its result equals the target, i.e. the triplet satisfies the equation |
| Game.TargetFits | script.js:315-320 | the target drawn for a mode: 10..50 for normal, 5..10 for facile, the previous target otherwise |
| Game.EvaluateMatchesFinder | script.js:107-135 | for the cells of an enumerated line, the attempt is correct exactly when findAllSolutions reports it |
| Game.UnalignedSelectionCanWin | script.js:231-256 | cells 0, 12, 24 lie on no enumerated line, yet (2 × 5) + 10 is accepted for 20 |
| Game.NewBoard | script.js:324 | the generator call returns a fresh board of 25 cells, all at least 1 |
| Game.Session.constructor | script.js:17-21 | the initial values: target 20, empty board and selection, no operator, mode 'normal' |
| Game.Session.SelectCell | script.js:156-169 | the selection becomes Toggle of the old one and stays valid |
| Game.Session.PerformCalculation | script.js:231-256 | nothing without three cells and an operator; otherwise the evaluation of the selected cells in selection order |
| Game.Session.SelectOperator | script.js:221-226 | records the operator and evaluates |
| Game.Session.ClearSelection | script.js:287-289 | the selection and operator are cleared, and the session stays valid |
| Game.Session.DrawTarget | script.js:315-320 | the target lies in 10..50 (normal) or 5..10 (facile), and is kept otherwise |
| Game.Session.TryBoard | script.js:322-335 | success exactly when the new board has at least six solutions; otherwise the board is emptied; with nothing selected the session stays valid |
| Game.Session.ResetGame | script.js:304-341 | 1..1000 attempts; success exactly when the board has at least six solutions; after 1000 failures the board is empty; selection cleared |
| Game.Session.ChangeMode | script.js:542-545 | records the mode, then resets the game with its guarantees: the mode's target range, success exactly when at least six solutions, a fresh board of 25 cells all at least 1 on success, an empty board after 1000 attempts otherwise |

## Left out

- The DOM and presentation are not modelled:
  - `generateGrid`, `updateCalculationDisplay` and `updateOperatorButtonsState`;
  - `highlightSolution`, `displayAllSolutions` and `clearSolutionHighlights`;
  - cell colours, feedback texts and console messages.
- The expression strings of `findAllSolutions` are not modelled. A solution is
  its line and its operator.
- `saveScore` and the save button are not modelled. They involve the clock
  (`Date`), and the score list is display only.
- `Math.random` is not computed. It is a parameter, a stream of reals in
  [0, 1), so no probabilities are modelled, such as how often a board
  reaches six solutions.
- `Math.sqrt` is not computed. The exact integer square root `ISqrt` replaces
  it, which matches the floating-point result for the small targets the game
  uses.
- JavaScript numbers are modelled as unbounded integers. All values in play
  are far below 2^53.
- An operator other than '+' or '−' from the button's dataset is not
  modelled. In the source it would give `undefined` as the result.
- The call of `resetGame` when the page loads, and the event wiring, are
  left out. Each handler is a method a caller may invoke.
- Generator.GenerateNumbers: the contract is stated as equality with the
  function `Generate`. The board and count properties are lemmas about
  `Generate` (`GeneratePlacements`, `GenerateFilled`, `GenerateBoard`), not
  ensures clauses of the method.
- Solutions.FindAllSolutions: the contract is equality with `AllSolutions`.
  The membership and order properties are the lemmas `AllSolutionsIff` and
  `SolutionsInLineOrder`.
- Game.Session.ResetGame: the target is only stated to fit the mode's range.
  Which of the 1000 attempts succeeds depends on the draws and is not stated.
