/**
 * generateNumbersWithAtLeastSixSolutions: the board generator. It shuffles the
 * triplets of the target and the 48 lines, then walks both lists with two
 * cursors in lock-step, writing a triplet onto a line when the line is not yet
 * assigned and none of its non-empty cells holds a different value. It then
 * fills the cells still at 0 with values in 1..10 and shuffles the whole board.
 */
module Generator {
  import opened Base
  import opened Random
  import opened Shuffle
  import opened Lines
  import opened Triplets
  import opened Solutions

  const FillMin := 1
  const FillMax := 10

  /** The record `{ triplet, line }` pushed onto `solutions` for each placement. */
  datatype Placement = Placement(triplet: Triplet, line: Line)

  /** line[j]: the j-th cell of a line (j in 0..2). */
  function CellAt(l: Line, j: int): int {
    if j == 0 then l.first else if j == 1 then l.second else l.third
  }

  /** The value a triplet writes into the j-th cell of its line: a, b, then c. */
  function ValueAt(t: Triplet, j: int): int {
    if j == 0 then t.a else if j == 1 then t.b else t.c
  }

  /** Three different cells of the grid. */
  predicate Proper(l: Line) {
    InGrid(l) && l.first != l.second && l.second != l.third && l.first != l.third
  }

  /** Cell j of the line already holds a value different from the triplet's. */
  predicate Blocks(board: seq<int>, l: Line, t: Triplet, j: int)
    requires |board| == CellCount && InGrid(l)
  {
    board[CellAt(l, j)] != 0 && board[CellAt(l, j)] != ValueAt(t, j)
  }

  predicate Conflicts(board: seq<int>, l: Line, t: Triplet)
    requires |board| == CellCount && InGrid(l)
  {
    exists j :: 0 <= j < 3 && Blocks(board, l, t, j)
  }

  /** The board after the first n writes of the assignment loop. */
  function WriteUpTo(board: seq<int>, l: Line, t: Triplet, n: int): (r: seq<int>)
    requires |board| == CellCount && InGrid(l) && 0 <= n <= 3
    ensures |r| == CellCount
    decreases n
  {
    if n == 0 then board
    else WriteUpTo(board, l, t, n - 1)[CellAt(l, n - 1) := ValueAt(t, n - 1)]
  }

  function WriteLine(board: seq<int>, l: Line, t: Triplet): (r: seq<int>)
    requires |board| == CellCount && InGrid(l)
    ensures |r| == CellCount
  {
    WriteUpTo(board, l, t, 3)
  }

  /** The line's cells hold the triplet's a, b and c, in that order. */
  predicate Holds(board: seq<int>, l: Line, t: Triplet)
    requires |board| == CellCount && InGrid(l)
  {
    board[l.first] == t.a && board[l.second] == t.b && board[l.third] == t.c
  }

  /** Every non-empty cell of `before` keeps its value in `after`. */
  predicate Agrees(before: seq<int>, after: seq<int>) {
    |before| == |after| && forall i :: 0 <= i < |before| && before[i] != 0 ==> after[i] == before[i]
  }

  /** The state of the greedy phase: the board, assignedLines and solutions. */
  datatype PlaceState = PlaceState(board: seq<int>, assignedLines: set<Line>, solutions: seq<Placement>)

  predicate AllInGrid(ls: seq<Line>) {
    forall l :: l in ls ==> InGrid(l)
  }

  /** One iteration of the greedy loop, for the triplet and the line under the cursors. */
  function TryPlace(st: PlaceState, t: Triplet, l: Line): (r: PlaceState)
    requires |st.board| == CellCount && InGrid(l)
    ensures |r.board| == CellCount
  {
    if l !in st.assignedLines && !Conflicts(st.board, l, t) then
      PlaceState(WriteLine(st.board, l, t), st.assignedLines + {l}, st.solutions + [Placement(t, l)])
    else st
  }

  /** The greedy loop from cursor k on: both cursors advance on every iteration. */
  function PlaceFrom(ts: seq<Triplet>, ls: seq<Line>, desired: nat, k: nat, st: PlaceState): (r: PlaceState)
    requires |st.board| == CellCount && AllInGrid(ls)
    ensures |r.board| == CellCount
    decreases |ts| - k
  {
    if |st.solutions| < desired && k < |ts| && k < |ls| then
      PlaceFrom(ts, ls, desired, k + 1, TryPlace(st, ts[k], ls[k]))
    else st
  }

  /** Filling: every cell still at 0, from index i on, receives getRandomInt(1, 10). */
  function FillFrom(board: seq<int>, i: nat, stream: nat -> Draw, pos: nat): (r: (seq<int>, nat))
    requires i <= |board|
    ensures |r.0| == |board| && r.1 >= pos
    ensures forall k :: 0 <= k < i ==> r.0[k] == board[k]
    ensures forall k :: i <= k < |board| && board[k] != 0 ==> r.0[k] == board[k]
    ensures forall k :: i <= k < |board| && board[k] == 0 ==> FillMin <= r.0[k] <= FillMax
    decreases |board| - i
  {
    if i == |board| then (board, pos)
    else if board[i] == 0 then
      FillFrom(board[i := GetRandomInt(stream(pos), FillMin, FillMax)], i + 1, stream, pos + 1)
    else FillFrom(board, i + 1, stream, pos)
  }

  /** The empty board: Array(25).fill(0). */
  function EmptyBoard(): (r: seq<int>)
    ensures |r| == CellCount && forall i :: 0 <= i < CellCount ==> r[i] == 0
  {
    seq(CellCount, _ => 0)
  }

  /**
   * One run of the generator: `placed` is the board after the greedy phase,
   * `filled` after the filling, `board` the returned (shuffled) board,
   * `solutions` the recorded placements and `nextPos` the next unused draw.
   */
  datatype Generation = Generation(placed: seq<int>, filled: seq<int>, board: seq<int>,
                                   solutions: seq<Placement>, nextPos: nat)

  /** The shuffled triplets and lines the greedy phase walks, and the next unused draw. */
  function ShuffledLists(target: int, stream: nat -> Draw, pos: nat): (r: (seq<Triplet>, seq<Line>, nat))
    ensures AllInGrid(r.1)
  {
    var (ts, p1) := Shuffled(PossibleTriplets(target), stream, pos);
    var (ls, p2) := Shuffled(AlignedLines(), stream, p1);
    ShuffledIsPermutation(AlignedLines(), stream, p1);
    AlignedLinesInGrid();
    (ts, ls, p2)
  }

  function Generate(target: int, desired: nat, stream: nat -> Draw, pos: nat): Generation {
    var (ts, ls, p2) := ShuffledLists(target, stream, pos);
    var st := PlaceFrom(ts, ls, desired, 0, PlaceState(EmptyBoard(), {}, []));
    var (filled, p3) := FillFrom(st.board, 0, stream, p2);
    var (board, p4) := Shuffled(filled, stream, p3);
    Generation(st.board, filled, board, st.solutions, p4)
  }

  /** The lines of the recorded placements, in order. */
  function LinesOf(sols: seq<Placement>): (r: seq<Line>)
    ensures |r| == |sols| && forall i :: 0 <= i < |sols| ==> r[i] == sols[i].line
  {
    seq(|sols|, i requires 0 <= i < |sols| => sols[i].line)
  }

  predicate PositiveTriplets(ts: seq<Triplet>) {
    forall t :: t in ts ==> t.a >= 1 && t.b >= 1 && t.c >= 1
  }

  predicate ProperLines(ls: seq<Line>) {
    forall i :: 0 <= i < |ls| ==> Proper(ls[i])
  }

  /**
   * The invariant of the greedy phase: cells are empty (0) or positive, at most
   * `desired` placements were recorded, each from the shuffled lists, on a line
   * assigned once, and every recorded line still holds its triplet.
   */
  ghost predicate Good(ts: seq<Triplet>, ls: seq<Line>, desired: nat, st: PlaceState) {
    |st.board| == CellCount
    && (forall i :: 0 <= i < CellCount ==> st.board[i] >= 0)
    && |st.solutions| <= desired
    && (forall p :: p in st.solutions ==>
          p.triplet in ts && p.line in ls && Proper(p.line) && Holds(st.board, p.line, p.triplet))
    && (forall l :: l in st.assignedLines <==> l in LinesOf(st.solutions))
    && Distinct(LinesOf(st.solutions))
  }

  /** Writing a triplet onto a line of three different cells sets exactly those cells. */
  lemma WriteLineFacts(board: seq<int>, l: Line, t: Triplet)
    requires |board| == CellCount && Proper(l)
    ensures Holds(WriteLine(board, l, t), l, t)
    ensures forall i :: 0 <= i < CellCount && i != l.first && i != l.second && i != l.third ==>
      WriteLine(board, l, t)[i] == board[i]
  {
  }

  /** A placement without conflict never changes a non-empty cell. */
  lemma NoConflictAgrees(board: seq<int>, l: Line, t: Triplet)
    requires |board| == CellCount && Proper(l) && !Conflicts(board, l, t)
    ensures Agrees(board, WriteLine(board, l, t))
  {
    WriteLineFacts(board, l, t);
    assert !Blocks(board, l, t, 0) && !Blocks(board, l, t, 1) && !Blocks(board, l, t, 2);
  }

  /** One iteration of the greedy loop keeps the invariant and never overwrites a set cell. */
  lemma TryPlaceKeeps(ts: seq<Triplet>, ls: seq<Line>, desired: nat, k: nat, st: PlaceState)
    requires Good(ts, ls, desired, st) && PositiveTriplets(ts) && ProperLines(ls)
    requires k < |ts| && k < |ls| && |st.solutions| < desired
    ensures Good(ts, ls, desired, TryPlace(st, ts[k], ls[k]))
    ensures Agrees(st.board, TryPlace(st, ts[k], ls[k]).board)
    ensures |TryPlace(st, ts[k], ls[k]).solutions| <= |st.solutions| + 1
  {
    var t, l := ts[k], ls[k];
    var r := TryPlace(st, t, l);
    if l !in st.assignedLines && !Conflicts(st.board, l, t) {
      assert t in ts && l in ls;
      WriteLineFacts(st.board, l, t);
      NoConflictAgrees(st.board, l, t);
      forall p | p in r.solutions
        ensures p.triplet in ts && p.line in ls && Proper(p.line) && Holds(r.board, p.line, p.triplet)
      {
        if p in st.solutions {
          assert st.board[p.line.first] == p.triplet.a >= 1;
          assert st.board[p.line.second] == p.triplet.b >= 1;
          assert st.board[p.line.third] == p.triplet.c >= 1;
        } else {
          assert p == Placement(t, l);
        }
      }
      assert LinesOf(r.solutions) == LinesOf(st.solutions) + [l];
      DistinctConcat(LinesOf(st.solutions), [l]);
      forall x ensures x in r.assignedLines <==> x in LinesOf(r.solutions) {
        assert x in LinesOf(st.solutions) + [l] <==> x in LinesOf(st.solutions) || x == l;
      }
    }
  }

  /** The whole greedy phase keeps the invariant; it records at most one placement per cursor step. */
  lemma {:induction false} PlaceFromKeeps(ts: seq<Triplet>, ls: seq<Line>, desired: nat, k: nat, st: PlaceState)
    requires Good(ts, ls, desired, st) && PositiveTriplets(ts) && ProperLines(ls)
    ensures Good(ts, ls, desired, PlaceFrom(ts, ls, desired, k, st))
    ensures Agrees(st.board, PlaceFrom(ts, ls, desired, k, st).board)
    ensures k <= |ts| ==> |PlaceFrom(ts, ls, desired, k, st).solutions| <= |st.solutions| + |ts| - k
    ensures k <= |ls| ==> |PlaceFrom(ts, ls, desired, k, st).solutions| <= |st.solutions| + |ls| - k
    decreases |ts| - k
  {
    if |st.solutions| < desired && k < |ts| && k < |ls| {
      var next := TryPlace(st, ts[k], ls[k]);
      TryPlaceKeeps(ts, ls, desired, k, st);
      PlaceFromKeeps(ts, ls, desired, k + 1, next);
    }
  }

  /** The greedy step without the `assignedLines` test: only the conflict test decides. */
  function TryPlaceFreeLine(st: PlaceState, t: Triplet, l: Line): (r: PlaceState)
    requires |st.board| == CellCount && InGrid(l)
    ensures |r.board| == CellCount
  {
    if !Conflicts(st.board, l, t) then
      PlaceState(WriteLine(st.board, l, t), st.assignedLines + {l}, st.solutions + [Placement(t, l)])
    else st
  }

  /** The greedy loop built from TryPlaceFreeLine. */
  function PlaceFromFreeLines(ts: seq<Triplet>, ls: seq<Line>, desired: nat, k: nat, st: PlaceState): (r: PlaceState)
    requires |st.board| == CellCount && AllInGrid(ls)
    ensures |r.board| == CellCount
    decreases |ts| - k
  {
    if |st.solutions| < desired && k < |ts| && k < |ls| then
      PlaceFromFreeLines(ts, ls, desired, k + 1, TryPlaceFreeLine(st, ts[k], ls[k]))
    else st
  }

  /**
   * On duplicate-free lines the `assignedLines` test never rejects a line: every
   * assigned line sits before the cursor, so the line under it is new.
   */
  lemma {:induction false} AssignedTestPasses(ts: seq<Triplet>, ls: seq<Line>, desired: nat, k: nat, st: PlaceState)
    requires |st.board| == CellCount && AllInGrid(ls) && Distinct(ls)
    requires forall l :: l in st.assignedLines ==> exists i :: 0 <= i < k && i < |ls| && ls[i] == l
    ensures PlaceFrom(ts, ls, desired, k, st) == PlaceFromFreeLines(ts, ls, desired, k, st)
    decreases |ts| - k
  {
    if |st.solutions| < desired && k < |ts| && k < |ls| {
      var l := ls[k];
      assert forall i :: 0 <= i < k ==> ls[i] != l;
      assert l !in st.assignedLines;
      var next := TryPlace(st, ts[k], l);
      assert next == TryPlaceFreeLine(st, ts[k], l);
      forall x | x in next.assignedLines
        ensures exists i :: 0 <= i < k + 1 && i < |ls| && ls[i] == x
      {
        if x == l {
          assert ls[k] == x;
        } else {
          assert x in st.assignedLines;
          var i :| 0 <= i < k && i < |ls| && ls[i] == x;
          assert ls[i] == x;
        }
      }
      AssignedTestPasses(ts, ls, desired, k + 1, next);
    }
  }

  /**
   * In the generator the shuffled lines are a permutation of the 48 distinct
   * lines, so the greedy phase behaves exactly as if the `assignedLines` test
   * were absent.
   */
  lemma GeneratorAssignedTestPasses(target: int, desired: nat, stream: nat -> Draw, pos: nat)
    ensures var sl := ShuffledLists(target, stream, pos);
      PlaceFrom(sl.0, sl.1, desired, 0, PlaceState(EmptyBoard(), {}, []))
      == PlaceFromFreeLines(sl.0, sl.1, desired, 0, PlaceState(EmptyBoard(), {}, []))
  {
    var sl := ShuffledLists(target, stream, pos);
    var p1 := Shuffled(PossibleTriplets(target), stream, pos).1;
    assert sl.1 == Shuffled(AlignedLines(), stream, p1).0;
    ShuffledIsPermutation(AlignedLines(), stream, p1);
    AlignedLinesDistinct();
    DistinctPermutation(AlignedLines(), sl.1);
    AssignedTestPasses(sl.0, sl.1, desired, 0, PlaceState(EmptyBoard(), {}, []));
  }

  /** Every enumerated line consists of three different grid cells. */
  lemma AlignedLinesProper(l: Line)
    requires l in AlignedLines()
    ensures Proper(l)
  {
    AlignedLinesIff(l);
    var d :| LineAlong(l, d);
    LineShape(l, d);
  }

  /** The inputs of the greedy phase of Generate satisfy what the invariant needs. */
  lemma ShuffledInputs(target: int, stream: nat -> Draw, pos: nat)
    ensures var (ts, ls, _) := ShuffledLists(target, stream, pos);
      PositiveTriplets(ts) && ProperLines(ls) && AllInGrid(ls)
      && (forall t :: t in ts <==> t in PossibleTriplets(target))
      && (forall l :: l in ls <==> l in AlignedLines())
      && |ts| == |PossibleTriplets(target)| && |ls| == 48
  {
    var (ts, p1) := Shuffled(PossibleTriplets(target), stream, pos);
    var ls := Shuffled(AlignedLines(), stream, p1).0;
    ShuffledIsPermutation(PossibleTriplets(target), stream, pos);
    ShuffledIsPermutation(AlignedLines(), stream, p1);
    forall t | t in ts ensures t.a >= 1 && t.b >= 1 && t.c >= 1 {
      PossibleTripletsPositive(target, t);
    }
    forall i | 0 <= i < |ls| ensures Proper(ls[i]) {
      AlignedLinesProper(ls[i]);
    }
  }

  /** The greedy phase from the empty board keeps the invariant; it places at most one triplet per line and per triplet. */
  lemma PlaceFromEmpty(ts: seq<Triplet>, ls: seq<Line>, desired: nat)
    requires PositiveTriplets(ts) && ProperLines(ls) && AllInGrid(ls)
    ensures var st := PlaceFrom(ts, ls, desired, 0, PlaceState(EmptyBoard(), {}, []));
      Good(ts, ls, desired, st) && |st.solutions| <= |ts| && |st.solutions| <= |ls|
  {
    var st0 := PlaceState(EmptyBoard(), {}, []);
    assert Good(ts, ls, desired, st0);
    PlaceFromKeeps(ts, ls, desired, 0, st0);
  }

  /**
   * Filling a board without negative cells keeps its non-empty cells, puts
   * 1..10 into the empty ones, and so leaves every cell at least 1.
   */
  lemma FillKeeps(board: seq<int>, stream: nat -> Draw, pos: nat)
    requires |board| == CellCount && forall i :: 0 <= i < CellCount ==> board[i] >= 0
    ensures var filled := FillFrom(board, 0, stream, pos).0;
      |filled| == CellCount && Agrees(board, filled)
      && (forall i :: 0 <= i < CellCount && board[i] == 0 ==> FillMin <= filled[i] <= FillMax)
      && (forall i :: 0 <= i < CellCount ==> filled[i] >= 1)
  {
    var filled := FillFrom(board, 0, stream, pos).0;
    forall i | 0 <= i < CellCount ensures filled[i] >= 1 {
      if board[i] != 0 {
        assert filled[i] == board[i];
      }
    }
  }

  /** A line holding a triplet of positive values keeps holding it on any board that agrees. */
  lemma AgreesKeepsHolds(before: seq<int>, after: seq<int>, l: Line, t: Triplet)
    requires |before| == CellCount && InGrid(l) && Agrees(before, after)
    requires Holds(before, l, t) && t.a >= 1 && t.b >= 1 && t.c >= 1
    ensures Holds(after, l, t)
  {
  }

  /**
   * The placement invariant of a generation, before the final shuffle: every
   * recorded placement is a triplet of the target on one of the 48 lines, no
   * line is used twice, and the line holds a, b and c in that order both after
   * the greedy phase and after the filling. There are at most `desired`
   * placements, at most as many as triplets, and at most 48.
   */
  lemma GeneratePlacements(target: int, desired: nat, stream: nat -> Draw, pos: nat)
    ensures var g := Generate(target, desired, stream, pos);
      |g.placed| == CellCount && |g.filled| == CellCount
      && |g.solutions| <= desired
      && |g.solutions| <= |PossibleTriplets(target)|
      && |g.solutions| <= 48
      && Distinct(LinesOf(g.solutions))
      && forall p :: p in g.solutions ==>
           p.triplet in PossibleTriplets(target) && p.line in AlignedLines() && Proper(p.line)
           && Holds(g.placed, p.line, p.triplet) && Holds(g.filled, p.line, p.triplet)
  {
    var g := Generate(target, desired, stream, pos);
    var sl := ShuffledLists(target, stream, pos);
    ShuffledInputs(target, stream, pos);
    PlaceFromEmpty(sl.0, sl.1, desired);
    var st := PlaceFrom(sl.0, sl.1, desired, 0, PlaceState(EmptyBoard(), {}, []));
    FillKeeps(st.board, stream, sl.2);
    assert g.placed == st.board && g.solutions == st.solutions;
    assert g.filled == FillFrom(st.board, 0, stream, sl.2).0;
    forall p | p in g.solutions ensures Holds(g.filled, p.line, p.triplet) {
      AgreesKeepsHolds(st.board, g.filled, p.line, p.triplet);
    }
  }

  /**
   * The filled board: 25 cells that keep every non-empty cell of the placed
   * board, with fillers in 1..10 in the empty ones, so all cells are at least 1.
   */
  lemma GenerateFilled(target: int, desired: nat, stream: nat -> Draw, pos: nat)
    ensures var g := Generate(target, desired, stream, pos);
      |g.placed| == CellCount && |g.filled| == CellCount
      && Agrees(g.placed, g.filled)
      && (forall i :: 0 <= i < CellCount && g.placed[i] == 0 ==> FillMin <= g.filled[i] <= FillMax)
      && (forall i :: 0 <= i < CellCount ==> g.filled[i] >= 1)
  {
    var g := Generate(target, desired, stream, pos);
    var sl := ShuffledLists(target, stream, pos);
    ShuffledInputs(target, stream, pos);
    PlaceFromEmpty(sl.0, sl.1, desired);
    var st := PlaceFrom(sl.0, sl.1, desired, 0, PlaceState(EmptyBoard(), {}, []));
    FillKeeps(st.board, stream, sl.2);
    assert g.placed == st.board && g.filled == FillFrom(st.board, 0, stream, sl.2).0;
  }

  /** Shuffling a board whose cells are all at least 1 gives a permutation whose cells are all at least 1. */
  lemma ShuffledBoardKeeps(board: seq<int>, stream: nat -> Draw, pos: nat)
    requires |board| == CellCount && forall i :: 0 <= i < CellCount ==> board[i] >= 1
    ensures var r := Shuffled(board, stream, pos).0;
      |r| == CellCount && multiset(r) == multiset(board)
      && forall i :: 0 <= i < CellCount ==> r[i] >= 1
  {
    var r := Shuffled(board, stream, pos).0;
    ShuffledIsPermutation(board, stream, pos);
    forall i | 0 <= i < CellCount ensures r[i] >= 1 {
      assert r[i] in multiset(board);
    }
  }

  /**
   * The returned board: 25 cells, all at least 1, a permutation of the filled
   * board.
   */
  lemma GenerateBoard(target: int, desired: nat, stream: nat -> Draw, pos: nat)
    ensures var g := Generate(target, desired, stream, pos);
      |g.board| == CellCount
      && multiset(g.board) == multiset(g.filled)
      && (forall i :: 0 <= i < CellCount ==> g.board[i] >= 1)
  {
    var g := Generate(target, desired, stream, pos);
    GenerateFilled(target, desired, stream, pos);
    var sl := ShuffledLists(target, stream, pos);
    var st := PlaceFrom(sl.0, sl.1, desired, 0, PlaceState(EmptyBoard(), {}, []));
    var fl := FillFrom(st.board, 0, stream, sl.2);
    assert g.filled == fl.0 && g.board == Shuffled(fl.0, stream, fl.1).0;
    ShuffledBoardKeeps(fl.0, stream, fl.1);
  }

  /** What the callers of the generator rely on: 25 cells, all at least 1, and the count bounds. */
  lemma GeneratedBoardFacts(target: int, desired: nat, stream: nat -> Draw, pos: nat, board: seq<int>, count: nat)
    requires board == Generate(target, desired, stream, pos).board
    requires count == |Generate(target, desired, stream, pos).solutions|
    ensures |board| == CellCount && forall i :: 0 <= i < CellCount ==> board[i] >= 1
    ensures count <= desired && count <= 48
  {
    GeneratePlacements(target, desired, stream, pos);
    GenerateBoard(target, desired, stream, pos);
  }

  /**
   * Before the final shuffle every placement is a solution that findAllSolutions
   * reports on the filled board (the final shuffle may destroy it).
   */
  lemma PlacedSolutionsAreFound(target: int, desired: nat, stream: nat -> Draw, pos: nat, p: Placement)
    requires p in Generate(target, desired, stream, pos).solutions
    ensures Solution(p.line, p.triplet.op) in AllSolutions(Generate(target, desired, stream, pos).filled, target)
  {
    var g := Generate(target, desired, stream, pos);
    GeneratePlacements(target, desired, stream, pos);
    PossibleTripletsIff(target, p.triplet);
    AllSolutionsIff(g.filled, target, p.line, p.triplet.op);
  }

  /** A fresh array holding `s`: the copy `[...s]`. */
  method CopyToArray<T>(s: seq<T>) returns (a: array<T>)
    ensures fresh(a) && a[..] == s
  {
    a := new T[|s|](i requires 0 <= i < |s| => s[i]);
  }

  /** The conflict loop: looks for a cell of the line that holds a different non-zero value. */
  method CheckConflict(numbers: array<int>, line: Line, triplet: Triplet) returns (conflict: bool)
    requires numbers.Length == CellCount && InGrid(line)
    ensures conflict == Conflicts(numbers[..], line, triplet)
  {
    conflict := false;
    for j := 0 to 3
      invariant forall i :: 0 <= i < j ==> !Blocks(numbers[..], line, triplet, i)
    {
      var cellIndex := CellAt(line, j);
      var existingNumber := numbers[cellIndex];
      var newNumber := ValueAt(triplet, j);
      if existingNumber != 0 && existingNumber != newNumber {
        assert Blocks(numbers[..], line, triplet, j);
        conflict := true;
        break;
      }
    }
  }

  /** The assignment loop: writes a, b and c into the line's three cells. */
  method AssignLine(numbers: array<int>, line: Line, triplet: Triplet)
    requires numbers.Length == CellCount && InGrid(line)
    modifies numbers
    ensures numbers[..] == WriteLine(old(numbers[..]), line, triplet)
  {
    for j := 0 to 3
      invariant numbers[..] == WriteUpTo(old(numbers[..]), line, triplet, j)
    {
      var cellIndex := CellAt(line, j);
      var newNumber := ValueAt(triplet, j);
      numbers[cellIndex] := newNumber;
    }
  }

  /**
   * The greedy loop of the generator: two cursors in lock-step over the shuffled
   * triplets and lines, placing a triplet when its line is unassigned and free
   * of conflicts, until `desiredSolutionsCount` placements or one list runs out.
   */
  method PlaceTriplets(numbers: array<int>, shuffledTriplets: array<Triplet>, shuffledLines: array<Line>,
                       desiredSolutionsCount: nat)
    returns (solutions: seq<Placement>)
    requires numbers.Length == CellCount && AllInGrid(shuffledLines[..])
    modifies numbers
    ensures var st := PlaceFrom(shuffledTriplets[..], shuffledLines[..], desiredSolutionsCount, 0,
                                PlaceState(old(numbers[..]), {}, []));
      numbers[..] == st.board && solutions == st.solutions
  {
    ghost var ts, ls := shuffledTriplets[..], shuffledLines[..];
    ghost var placedState := PlaceFrom(ts, ls, desiredSolutionsCount, 0, PlaceState(numbers[..], {}, []));
    solutions := [];
    var assignedLines: set<Line> := {};
    var tripletIndex := 0;
    var lineIndex := 0;
    while |solutions| < desiredSolutionsCount && tripletIndex < shuffledTriplets.Length
          && lineIndex < shuffledLines.Length
      invariant lineIndex == tripletIndex <= |ts|
      invariant shuffledTriplets[..] == ts && shuffledLines[..] == ls
      invariant PlaceFrom(ts, ls, desiredSolutionsCount, tripletIndex,
                          PlaceState(numbers[..], assignedLines, solutions)) == placedState
      decreases |ts| - tripletIndex
    {
      var triplet := shuffledTriplets[tripletIndex];
      var line := shuffledLines[lineIndex];
      assert line in ls;
      if line !in assignedLines {
        var conflict := CheckConflict(numbers, line, triplet);
        if !conflict {
          AssignLine(numbers, line, triplet);
          solutions := solutions + [Placement(triplet, line)];
          assignedLines := assignedLines + {line};
        }
      }
      tripletIndex := tripletIndex + 1;
      lineIndex := lineIndex + 1;
    }
  }

  /** The filling loop: every cell still at 0 receives getRandomInt(1, 10). */
  method FillEmptyCells(numbers: array<int>, rng: RandomSource)
    modifies numbers, rng
    ensures (numbers[..], rng.pos) == FillFrom(old(numbers[..]), 0, rng.stream, old(rng.pos))
  {
    for i := 0 to numbers.Length
      invariant FillFrom(numbers[..], i, rng.stream, rng.pos)
             == FillFrom(old(numbers[..]), 0, rng.stream, old(rng.pos))
    {
      if numbers[i] == 0 {
        var v := rng.Next(FillMin, FillMax);
        numbers[i] := v;
      }
    }
  }

  /** The preparation of the generator: the shuffled copies of all triplets and all lines. */
  method ShuffleInputs(target: int, rng: RandomSource)
    returns (shuffledTriplets: array<Triplet>, shuffledLines: array<Line>)
    modifies rng
    ensures fresh(shuffledTriplets) && fresh(shuffledLines)
    ensures (shuffledTriplets[..], shuffledLines[..], rng.pos) == ShuffledLists(target, rng.stream, old(rng.pos))
  {
    var allPossibleTriplets := FindPossibleTriplets(target);
    shuffledTriplets := CopyToArray(allPossibleTriplets);
    ShuffleArray(shuffledTriplets, rng);
    var allLines := GetAllAlignedLines();
    shuffledLines := CopyToArray(allLines);
    ShuffleArray(shuffledLines, rng);
  }

  /**
   * generateNumbersWithAtLeastSixSolutions(desiredSolutionsCount) for the current
   * target: returns the new board `numbers` and the number of placements made.
   */
  method GenerateNumbers(target: int, desiredSolutionsCount: nat, rng: RandomSource)
    returns (numbers: array<int>, count: nat)
    modifies rng
    ensures fresh(numbers)
    ensures numbers[..] == Generate(target, desiredSolutionsCount, rng.stream, old(rng.pos)).board
    ensures count == |Generate(target, desiredSolutionsCount, rng.stream, old(rng.pos)).solutions|
    ensures rng.pos == Generate(target, desiredSolutionsCount, rng.stream, old(rng.pos)).nextPos
    ensures numbers.Length == CellCount
  {
    ghost var pos0 := rng.pos;
    ghost var sl := ShuffledLists(target, rng.stream, pos0);
    numbers := new int[CellCount](_ => 0);
    var shuffledTriplets, shuffledLines := ShuffleInputs(target, rng);
    assert numbers[..] == EmptyBoard();
    ghost var st := PlaceFrom(sl.0, sl.1, desiredSolutionsCount, 0, PlaceState(EmptyBoard(), {}, []));
    var solutions := PlaceTriplets(numbers, shuffledTriplets, shuffledLines, desiredSolutionsCount);
    assert numbers[..] == st.board && solutions == st.solutions;
    ghost var fl := FillFrom(st.board, 0, rng.stream, sl.2);
    FillEmptyCells(numbers, rng);
    assert numbers[..] == fl.0 && rng.pos == fl.1;
    ghost var sh := Shuffled(fl.0, rng.stream, fl.1);
    ShuffleArray(numbers, rng);
    count := |solutions|;
    assert Generate(target, desiredSolutionsCount, rng.stream, pos0)
        == Generation(st.board, fl.0, sh.0, st.solutions, sh.1);
  }
}
