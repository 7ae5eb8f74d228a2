/**
 * The game session: the module-level state of script.js (target, numbers,
 * selectedCells, selectedOperator, currentMode) and the handlers that change
 * it: selectCell, selectOperator, performCalculation, clearSelection,
 * resetGame and the mode selector.
 */
module Game {
  import opened Base
  import opened Random
  import opened Lines
  import opened Triplets
  import opened Solutions
  import opened Generator

  /** The value of the mode selector; only 'normal' and 'facile' choose a target range. */
  datatype Mode = Normal | Facile | Other(name: string)

  /** An evaluated attempt: the value of (a × b) op c and whether it equals the target. */
  datatype Attempt = Attempt(result: int, correct: bool)

  /** The retry limit of resetGame. */
  const MaxAttempts: nat := 1000

  /** The number of solutions resetGame asks for and accepts. */
  const DesiredSolutions: nat := 6

  /** The most cells a selection holds. */
  const MaxSelection: nat := 3

  /** selectedCells.filter(i => i !== x). */
  function Without(s: seq<int>, x: int): (r: seq<int>)
    ensures forall y :: y in r <==> y in s && y != x
    ensures |r| <= |s|
    ensures x !in s ==> r == s
    ensures Distinct(s) ==> Distinct(r)
    ensures Distinct(s) && x in s ==> |r| == |s| - 1
    decreases |s|
  {
    if s == [] then []
    else
      var rest := Without(s[1..], x);
      assert s == [s[0]] + s[1..];
      assert Distinct(s) ==> Distinct(s[1..]) && s[0] !in s[1..] by {
        if Distinct(s) {
          forall i | 0 <= i < |s[1..]| ensures s[1..][i] != s[0] {
            assert s[1..][i] == s[i + 1];
          }
        }
      }
      if s[0] == x then rest else [s[0]] + rest
  }

  /** In a duplicate-free selection, removing an element keeps the others in their order. */
  lemma {:induction false} WithoutRemovesPosition(s: seq<int>, k: nat)
    requires Distinct(s) && k < |s|
    ensures Without(s, s[k]) == s[..k] + s[k + 1..]
    decreases |s|
  {
    assert s == [s[0]] + s[1..];
    if k == 0 {
      assert s[0] !in s[1..] by {
        forall i | 0 <= i < |s[1..]| ensures s[1..][i] != s[0] {
          assert s[1..][i] == s[i + 1];
        }
      }
      assert Without(s[1..], s[0]) == s[1..];
    } else {
      assert Distinct(s[1..]) by {
        forall i, j | 0 <= i < j < |s[1..]| ensures s[1..][i] != s[1..][j] {
          assert s[1..][i] == s[i + 1] && s[1..][j] == s[j + 1];
        }
      }
      assert s[1..][k - 1] == s[k];
      WithoutRemovesPosition(s[1..], k - 1);
      assert s[0] != s[k];
      assert s[..k] == [s[0]] + s[1..][..k - 1];
      assert s[k + 1..] == s[1..][k..];
    }
  }

  /** A selection as selectCell keeps it: no index twice and at most three indices. */
  predicate WellFormedSelection(sel: seq<int>) {
    Distinct(sel) && |sel| <= MaxSelection
  }

  /**
   * The selection after a click on cell `index`: a selected cell is deselected,
   * an unselected one is appended while fewer than three are selected, and a
   * fourth click is ignored.
   */
  function Toggle(sel: seq<int>, index: int): (r: seq<int>)
    ensures index in sel ==> index !in r && forall y :: y != index ==> (y in r <==> y in sel)
    ensures index !in sel && |sel| < MaxSelection ==> r == sel + [index]
    ensures index !in sel && |sel| >= MaxSelection ==> r == sel
    ensures WellFormedSelection(sel) ==> WellFormedSelection(r)
  {
    if index in sel then Without(sel, index)
    else if |sel| < MaxSelection then
      assert Distinct(sel) ==> Distinct(sel + [index]) by {
        if Distinct(sel) {
          DistinctConcat(sel, [index]);
        }
      }
      sel + [index]
    else sel
  }

  /** Selecting a new cell and clicking it again restores the selection exactly. */
  lemma ToggleTwiceRestores(sel: seq<int>, index: int)
    requires index !in sel && |sel| < MaxSelection
    ensures Toggle(Toggle(sel, index), index) == sel
  {
    var once := sel + [index];
    assert Toggle(sel, index) == once;
    assert once[|sel|] == index;
    if Distinct(sel) {
      DistinctConcat(sel, [index]);
      WithoutRemovesPosition(once, |sel|);
      assert once[..|sel|] == sel;
    } else {
      WithoutIsFilter(once, index);
    }
  }

  /** Removing an element that occurs once, as the last one, leaves the sequence before it. */
  lemma {:induction false} WithoutIsFilter(s: seq<int>, x: int)
    requires |s| > 0 && x !in s[..|s| - 1] && s[|s| - 1] == x
    ensures Without(s, x) == s[..|s| - 1]
    decreases |s|
  {
    if |s| > 1 {
      assert s[1..][..|s[1..]| - 1] == s[1..|s| - 1];
      assert s[0] in s[..|s| - 1];
      WithoutIsFilter(s[1..], x);
      assert s[..|s| - 1] == [s[0]] + s[1..|s| - 1];
    } else {
      assert s == [x];
      assert Without(s, x) == Without(s[1..], x);
    }
  }

  /** Clicking a selected cell twice gives back the same cells (now with that one last). */
  lemma ToggleTwiceKeepsCells(sel: seq<int>, index: int)
    requires WellFormedSelection(sel) && index in sel
    ensures var r := Toggle(Toggle(sel, index), index);
      |r| == |sel| && forall y :: y in r <==> y in sel
  {
    var once := Toggle(sel, index);
    assert |once| == |sel| - 1 && index !in once;
    assert Toggle(once, index) == once + [index];
  }

  /**
   * The attempt performCalculation evaluates for cells a, b and c (in the order
   * they were selected) and the operator.
   */
  function Evaluate(a: int, b: int, c: int, op: Op, target: int): (r: Attempt)
    ensures r.correct <==> r.result == target
    ensures r.correct <==> Satisfies(target, Triplet(a, b, c, op))
  {
    var result := match op
      case Plus => (a * b) + c
      case Minus => (a * b) - c;
    Attempt(result, result == target)
  }

  /**
   * When the selected cells form an enumerated line, in the order of that line,
   * the attempt is correct exactly when findAllSolutions reports that line with
   * that operator.
   */
  lemma EvaluateMatchesFinder(board: seq<int>, sel: seq<int>, op: Op, target: int)
    requires |sel| == 3 && forall i :: 0 <= i < 3 ==> 0 <= sel[i] < |board|
    requires Line(sel[0], sel[1], sel[2]) in AlignedLines()
    ensures Evaluate(board[sel[0]], board[sel[1]], board[sel[2]], op, target).correct
      <==> Solution(Line(sel[0], sel[1], sel[2]), op) in AllSolutions(board, target)
  {
    AllSolutionsIff(board, target, Line(sel[0], sel[1], sel[2]), op);
  }

  /**
   * performCalculation does not check that the cells are aligned: cells 0, 12
   * and 24 lie on no enumerated line, yet 2 × 5 + 10 is counted correct for 20.
   */
  lemma UnalignedSelectionCanWin()
    ensures Line(0, 12, 24) !in AlignedLines()
    ensures Evaluate(2, 5, 10, Plus, 20).correct
  {
    AlignedLinesIff(Line(0, 12, 24));
    forall d ensures !LineAlong(Line(0, 12, 24), d) {
      assert Step(d) in {1, 5, 6, -4};
    }
  }

  /** The target a given mode draws: 10..50 in 'normal', 5..10 in 'facile', else kept. */
  predicate TargetFits(mode: Mode, target: int, previous: int) {
    match mode
    case Normal => 10 <= target <= 50
    case Facile => 5 <= target <= 10
    case Other(_) => target == previous
  }

  /**
   * The call generateNumbersWithAtLeastSixSolutions(6) of resetGame: a fresh
   * board of 25 cells, all at least 1 (its count is not used there).
   */
  method NewBoard(target: int, rng: RandomSource) returns (board: array<int>)
    modifies rng
    ensures fresh(board) && board.Length == CellCount
    ensures forall i :: 0 <= i < CellCount ==> board[i] >= 1
  {
    ghost var p := rng.pos;
    var solutionCount;
    board, solutionCount := GenerateNumbers(target, DesiredSolutions, rng);
    GeneratedBoardFacts(target, DesiredSolutions, rng.stream, p, board[..], solutionCount);
  }

  /** The module-level state of the game. */
  class Session {
    var target: int
    var numbers: array<int>
    var selectedCells: seq<int>
    var selectedOperator: Option<Op>
    var currentMode: Mode

    /**
     * The board is empty or has 25 cells, and the selection is well formed and
     * names cells of the board (only rendered cells can be clicked).
     */
    predicate Valid()
      reads this
    {
      (numbers.Length == 0 || numbers.Length == CellCount)
      && WellFormedSelection(selectedCells)
      && forall i :: 0 <= i < |selectedCells| ==> 0 <= selectedCells[i] < numbers.Length
    }

    /** The initial values of the module-level variables. */
    constructor ()
      ensures target == 20 && numbers.Length == 0 && selectedCells == []
      ensures selectedOperator == None && currentMode == Normal
      ensures Valid()
    {
      target := 20;
      numbers := new int[0];
      selectedCells := [];
      selectedOperator := None;
      currentMode := Normal;
    }

    /** selectCell: toggles the clicked cell in the selection. */
    method SelectCell(index: int)
      requires Valid() && 0 <= index < numbers.Length
      modifies this`selectedCells
      ensures selectedCells == Toggle(old(selectedCells), index)
      ensures Valid()
    {
      if index in selectedCells {
        ghost var before := selectedCells;
        selectedCells := Without(selectedCells, index);
        forall i | 0 <= i < |selectedCells| ensures 0 <= selectedCells[i] < numbers.Length {
          assert selectedCells[i] in before;
        }
      } else {
        if |selectedCells| < MaxSelection {
          selectedCells := selectedCells + [index];
        }
      }
    }

    /**
     * performCalculation: nothing unless three cells and an operator are
     * selected; otherwise the attempt (a × b) op c against the target, where
     * a, b and c are the cells in selection order. The selection is kept.
     */
    method PerformCalculation() returns (outcome: Option<Attempt>)
      requires Valid()
      ensures outcome.None? <==> |selectedCells| != 3 || selectedOperator.None?
      ensures outcome.Some? ==>
        outcome.value == Evaluate(numbers[selectedCells[0]], numbers[selectedCells[1]],
                                  numbers[selectedCells[2]], selectedOperator.value, target)
      ensures outcome.Some? ==> (outcome.value.correct <==> outcome.value.result == target)
    {
      if |selectedCells| != 3 || selectedOperator.None? {
        return None;
      }
      var i1, i2, i3 := selectedCells[0], selectedCells[1], selectedCells[2];
      var a := numbers[i1];
      var b := numbers[i2];
      var c := numbers[i3];
      var result: int;
      if selectedOperator.value == Plus {
        result := (a * b) + c;
      } else {
        result := (a * b) - c;
      }
      outcome := Some(Attempt(result, result == target));
    }

    /** selectOperator: records the operator, then evaluates. */
    method SelectOperator(op: Op) returns (outcome: Option<Attempt>)
      requires Valid()
      modifies this`selectedOperator
      ensures selectedOperator == Some(op) && Valid()
      ensures outcome.None? <==> |selectedCells| != 3
      ensures outcome.Some? ==>
        outcome.value == Evaluate(numbers[selectedCells[0]], numbers[selectedCells[1]],
                                  numbers[selectedCells[2]], op, target)
    {
      selectedOperator := Some(op);
      outcome := PerformCalculation();
    }

    /** clearSelection: forgets the selected cells and the operator. */
    method ClearSelection()
      requires Valid()
      modifies this`selectedCells, this`selectedOperator
      ensures selectedCells == [] && selectedOperator == None
      ensures Valid()
    {
      selectedCells := [];
      selectedOperator := None;
    }

    /** The target of one attempt: drawn in 10..50 ('normal') or 5..10 ('facile'), else kept. */
    method DrawTarget(rng: RandomSource)
      requires Valid()
      modifies this`target, rng
      ensures TargetFits(currentMode, target, old(target))
      ensures Valid()
    {
      match currentMode {
        case Normal => target := rng.Next(10, 50);
        case Facile => target := rng.Next(5, 10);
        case Other(_) =>
      }
    }

    /**
     * One pass of the loop of resetGame: draw a target for the mode, generate a
     * board and keep it when it has at least six solutions, else empty it.
     */
    method TryBoard(rng: RandomSource) returns (success: bool)
      requires selectedCells == []
      modifies this`numbers, rng
      ensures success <==> |AllSolutions(numbers[..], target)| >= DesiredSolutions
      ensures success ==> fresh(numbers) && numbers.Length == CellCount
      ensures success ==> forall i :: 0 <= i < CellCount ==> numbers[i] >= 1
      ensures !success ==> numbers.Length == 0
      ensures Valid()
    {
      var board := NewBoard(target, rng);
      var solutions := FindAllSolutions(board, target);
      if |solutions| >= DesiredSolutions {
        success := true;
        numbers := board;
        assert numbers[..] == board[..];
      } else {
        success := false;
        numbers := new int[0];
        NoSolutionsOnEmptyBoard(target);
        assert numbers[..] == [];
        assert |AllSolutions(numbers[..], target)| == 0;
      }
    }

    /**
     * resetGame: clears the selection, then up to 1000 attempts, stopping at
     * the first board on which findAllSolutions reports at least six
     * solutions. After 1000 failures the board is left empty.
     */
    method ResetGame(rng: RandomSource) returns (success: bool, attempts: nat)
      requires Valid()
      modifies this`target, this`numbers, this`selectedCells, this`selectedOperator, rng
      ensures 1 <= attempts <= MaxAttempts
      ensures success <==> |AllSolutions(numbers[..], target)| >= DesiredSolutions
      ensures !success ==> attempts == MaxAttempts && numbers.Length == 0
      ensures success ==> fresh(numbers) && numbers.Length == CellCount
      ensures success ==> forall i :: 0 <= i < CellCount ==> numbers[i] >= 1
      ensures TargetFits(currentMode, target, old(target))
      ensures selectedCells == [] && selectedOperator == None
      ensures Valid()
    {
      ClearSelection();
      attempts := 0;
      success := false;
      while attempts < MaxAttempts && !success
        invariant 0 <= attempts <= MaxAttempts
        invariant selectedCells == [] && selectedOperator == None
        invariant Valid()
        invariant attempts == 0 ==> !success && target == old(target)
        invariant attempts > 0 ==> TargetFits(currentMode, target, old(target))
        invariant attempts > 0 ==> (success <==> |AllSolutions(numbers[..], target)| >= DesiredSolutions)
        invariant success ==> fresh(numbers) && numbers.Length == CellCount
        invariant success ==> forall i :: 0 <= i < CellCount ==> numbers[i] >= 1
        invariant !success && attempts > 0 ==> numbers.Length == 0
        decreases MaxAttempts - attempts
      {
        attempts := attempts + 1;
        DrawTarget(rng);
        success := TryBoard(rng);
      }
    }

    /** The mode selector: records the mode, then resets the game. */
    method ChangeMode(mode: Mode, rng: RandomSource) returns (success: bool, attempts: nat)
      requires Valid()
      modifies this`currentMode, this`target, this`numbers, this`selectedCells, this`selectedOperator, rng
      ensures currentMode == mode
      ensures 1 <= attempts <= MaxAttempts
      ensures success <==> |AllSolutions(numbers[..], target)| >= DesiredSolutions
      ensures !success ==> attempts == MaxAttempts && numbers.Length == 0
      ensures success ==> fresh(numbers) && numbers.Length == CellCount
      ensures success ==> forall i :: 0 <= i < CellCount ==> numbers[i] >= 1
      ensures TargetFits(mode, target, old(target))
      ensures selectedCells == [] && selectedOperator == None
      ensures Valid()
    {
      currentMode := mode;
      success, attempts := ResetGame(rng);
    }
  }
}
