/**
 * findAllSolutions: scans the aligned lines in enumeration order and reports
 * (line, '+') when board[i1] * board[i2] + board[i3] == target and
 * (line, '-') when board[i1] * board[i2] - board[i3] == target.
 */
module Solutions {
  import opened Base
  import opened Lines
  import opened Triplets

  /** A solution: the three cells of a line and the operator that hits the target. */
  datatype Solution = Solution(cells: Line, op: Op)

  /**
   * The line's three cells exist on the board. Reading a missing cell gives
   * `undefined` in the source, and then neither comparison can succeed.
   */
  predicate OnBoard(board: seq<int>, l: Line) {
    0 <= l.first < |board| && 0 <= l.second < |board| && 0 <= l.third < |board|
  }

  /** (board[i1] × board[i2]) op board[i3] == target. */
  predicate Hits(board: seq<int>, l: Line, op: Op, target: int) {
    OnBoard(board, l) &&
    var a, b, c := board[l.first], board[l.second], board[l.third];
    match op
    case Plus => a * b + c == target
    case Minus => a * b - c == target
  }

  /** What one iteration of the scan pushes for a line: '+' first, then '-'. */
  function LineSolutions(board: seq<int>, l: Line, target: int): (r: seq<Solution>)
    ensures forall s :: s in r <==> s.cells == l && Hits(board, l, s.op, target)
  {
    (if Hits(board, l, Plus, target) then [Solution(l, Plus)] else [])
    + (if Hits(board, l, Minus, target) then [Solution(l, Minus)] else [])
  }

  /** The scan over `lines`, in their order. */
  function SolutionsOver(board: seq<int>, lines: seq<Line>, target: int): seq<Solution>
    decreases |lines|
  {
    if lines == [] then []
    else SolutionsOver(board, lines[..|lines| - 1], target)
         + LineSolutions(board, lines[|lines| - 1], target)
  }

  /** The result of findAllSolutions for the board `numbers` and the target. */
  function AllSolutions(board: seq<int>, target: int): seq<Solution> {
    SolutionsOver(board, AlignedLines(), target)
  }

  /** A solution is reported exactly when its line is scanned and its equation holds. */
  lemma {:induction false} SolutionsOverIff(board: seq<int>, lines: seq<Line>, target: int, s: Solution)
    ensures s in SolutionsOver(board, lines, target) <==> s.cells in lines && Hits(board, s.cells, s.op, target)
    decreases |lines|
  {
    if lines != [] {
      var init, last := lines[..|lines| - 1], lines[|lines| - 1];
      SolutionsOverIff(board, init, target, s);
      assert lines == init + [last];
      assert s in SolutionsOver(board, lines, target) <==>
        s in SolutionsOver(board, init, target) || s in LineSolutions(board, last, target);
    }
  }

  /**
   * findAllSolutions reports (line, op) exactly when the line is one of the 48
   * aligned lines and its three board values satisfy the equation of op.
   */
  lemma AllSolutionsIff(board: seq<int>, target: int, l: Line, op: Op)
    ensures Solution(l, op) in AllSolutions(board, target) <==>
      l in AlignedLines() && Hits(board, l, op, target)
  {
    SolutionsOverIff(board, AlignedLines(), target, Solution(l, op));
  }

  /** The first position of `l` in `lines`. */
  function IndexOf(lines: seq<Line>, l: Line): (k: nat)
    requires l in lines
    ensures k < |lines| && lines[k] == l
    ensures forall i :: 0 <= i < k ==> lines[i] != l
  {
    if lines[0] == l then 0 else 1 + IndexOf(lines[1..], l)
  }

  /** Emission order: by the position of the line, then '+' before '-' on the same line. */
  predicate EmittedBefore(lines: seq<Line>, x: Solution, y: Solution)
    requires x.cells in lines && y.cells in lines
  {
    IndexOf(lines, x.cells) < IndexOf(lines, y.cells)
    || (x.cells == y.cells && x.op == Plus && y.op == Minus)
  }

  lemma IndexOfPrefix(lines: seq<Line>, l: Line, n: nat)
    requires n <= |lines| && l in lines[..n]
    ensures IndexOf(lines[..n], l) == IndexOf(lines, l)
  {
    var k := IndexOf(lines[..n], l);
    assert lines[k] == lines[..n][k];
    forall i | 0 <= i < k
      ensures lines[i] != l
    {
      assert lines[..n][i] == lines[i];
    }
  }

  lemma InPrefix(lines: seq<Line>, l: Line, n: nat)
    requires n <= |lines| && l in lines[..n]
    ensures l in lines
  {
    var k :| 0 <= k < n && lines[..n][k] == l;
    assert lines[k] == l;
  }

  /** Every reported solution lies on one of the scanned lines. */
  lemma SolutionsOnLines(board: seq<int>, lines: seq<Line>, target: int)
    ensures forall i :: 0 <= i < |SolutionsOver(board, lines, target)| ==>
      SolutionsOver(board, lines, target)[i].cells in lines
  {
    var r := SolutionsOver(board, lines, target);
    forall i | 0 <= i < |r| ensures r[i].cells in lines {
      SolutionsOverIff(board, lines, target, r[i]);
    }
  }

  /** Solutions ordered along a prefix of `lines` stay ordered along `lines`. */
  lemma PrefixOrderLifts(lines: seq<Line>, n: nat, p: seq<Solution>)
    requires n <= |lines|
    requires forall i :: 0 <= i < |p| ==> p[i].cells in lines[..n]
    requires forall i, j :: 0 <= i < j < |p| ==> EmittedBefore(lines[..n], p[i], p[j])
    ensures forall i :: 0 <= i < |p| ==> p[i].cells in lines && IndexOf(lines, p[i].cells) < n
    ensures forall i, j :: 0 <= i < j < |p| ==> EmittedBefore(lines, p[i], p[j])
  {
    forall i | 0 <= i < |p| ensures p[i].cells in lines && IndexOf(lines, p[i].cells) < n {
      InPrefix(lines, p[i].cells, n);
      IndexOfPrefix(lines, p[i].cells, n);
    }
    forall i, j | 0 <= i < j < |p| ensures EmittedBefore(lines, p[i], p[j]) {
      assert EmittedBefore(lines[..n], p[i], p[j]);
      IndexOfPrefix(lines, p[i].cells, n);
      IndexOfPrefix(lines, p[j].cells, n);
    }
  }

  /**
   * The solutions come in line order, and on one line '+' before '-';
   * in particular no solution is reported twice.
   */
  lemma {:induction false} SolutionsInLineOrder(board: seq<int>, lines: seq<Line>, target: int)
    requires Distinct(lines)
    ensures forall i :: 0 <= i < |SolutionsOver(board, lines, target)| ==>
      SolutionsOver(board, lines, target)[i].cells in lines
    ensures forall i, j :: 0 <= i < j < |SolutionsOver(board, lines, target)| ==>
      EmittedBefore(lines, SolutionsOver(board, lines, target)[i], SolutionsOver(board, lines, target)[j])
    decreases |lines|
  {
    SolutionsOnLines(board, lines, target);
    var r := SolutionsOver(board, lines, target);
    if lines != [] {
      var n := |lines| - 1;
      var init, last := lines[..n], lines[n];
      assert Distinct(init);
      SolutionsInLineOrder(board, init, target);
      var p, q := SolutionsOver(board, init, target), LineSolutions(board, last, target);
      PrefixOrderLifts(lines, n, p);
      assert r == p + q;
      assert forall j :: 0 <= j < |q| ==> q[j].cells == last;
      assert IndexOf(lines, last) == n by {
        forall i | 0 <= i < n ensures lines[i] != last { }
      }
      forall i, j | 0 <= i < j < |r|
        ensures EmittedBefore(lines, r[i], r[j])
      {
        if j < |p| {
          assert r[i] == p[i] && r[j] == p[j];
        } else if i < |p| {
          assert r[i] == p[i] && r[j] == q[j - |p|];
        } else {
          assert r[i] == q[i - |p|] && r[j] == q[j - |p|];
        }
      }
    }
  }

  /** On a board without cells (the source resets `numbers` to []) nothing is found. */
  lemma NoSolutionsOnEmptyBoard(target: int)
    ensures AllSolutions([], target) == []
  {
    if AllSolutions([], target) != [] {
      var s := AllSolutions([], target)[0];
      AllSolutionsIff([], target, s.cells, s.op);
    }
  }

  /** findAllSolutions: one pass over getAllAlignedLines, pushing the matches. */
  method FindAllSolutions(numbers: array<int>, target: int) returns (solutions: seq<Solution>)
    ensures solutions == AllSolutions(numbers[..], target)
  {
    solutions := [];
    var lines := GetAllAlignedLines();
    for k := 0 to |lines|
      invariant solutions == SolutionsOver(numbers[..], lines[..k], target)
    {
      solutions := CheckLine(numbers, lines[k], target, solutions);
      assert lines[..k + 1][..k] == lines[..k];
    }
    assert lines[..|lines|] == lines;
  }

  /** The body of the scan for one line: '+' is tested before '-'. */
  method CheckLine(numbers: array<int>, line: Line, target: int, start: seq<Solution>) returns (solutions: seq<Solution>)
    ensures solutions == start + LineSolutions(numbers[..], line, target)
  {
    solutions := start;
    // A cell missing from the board reads as undefined, which matches nothing.
    if 0 <= line.first < numbers.Length && 0 <= line.second < numbers.Length
       && 0 <= line.third < numbers.Length {
      var a := numbers[line.first];
      var b := numbers[line.second];
      var c := numbers[line.third];
      if (a * b) + c == target {
        solutions := solutions + [Solution(line, Plus)];
      }
      if (a * b) - c == target {
        solutions := solutions + [Solution(line, Minus)];
      }
    }
  }
}
