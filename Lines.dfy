/**
 * getAllAlignedLines: every line of three consecutive cells of the 5x5 grid.
 * A cell is the index row * 5 + col; a line lists its three cells in the order
 * the source builds them (left to right, top to bottom, and for the ascending
 * diagonal from the bottom-left cell upwards).
 */
module Lines {
  import opened Base

  const GridSize := 5
  /** Number of start positions of a line of three along one row or column. */
  const Span := GridSize - 2
  const CellCount := GridSize * GridSize

  datatype Line = Line(first: int, second: int, third: int)

  datatype Direction = Horizontal | Vertical | Descending | Ascending

  function Cell(row: int, col: int): int {
    row * GridSize + col
  }

  function RowStep(d: Direction): int {
    match d
    case Horizontal => 0
    case Vertical => 1
    case Descending => 1
    case Ascending => -1
  }

  function ColStep(d: Direction): int {
    if d == Vertical then 0 else 1
  }

  /** The difference between consecutive cell indices along a direction. */
  function Step(d: Direction): (r: int)
    ensures r == match d case Horizontal => 1 case Vertical => 5 case Descending => 6 case Ascending => -4
  {
    RowStep(d) * GridSize + ColStep(d)
  }

  predicate OnGrid(row: int, col: int) {
    0 <= row < GridSize && 0 <= col < GridSize
  }

  /**
   * Geometric meaning of a line: its first cell is on the grid, the other two
   * follow it one step (RowStep(d), ColStep(d)) at a time, and the last one is
   * still on the grid (so the line never wraps around a row edge).
   */
  predicate LineAlong(l: Line, d: Direction) {
    0 <= l.first < CellCount &&
    var row, col := l.first / GridSize, l.first % GridSize;
    OnGrid(row + 2 * RowStep(d), col + 2 * ColStep(d)) &&
    l.second == Cell(row + RowStep(d), col + ColStep(d)) &&
    l.third == Cell(row + 2 * RowStep(d), col + 2 * ColStep(d))
  }

  predicate IsAligned(l: Line) {
    exists d :: LineAlong(l, d)
  }

  /** All three cells of `l` are cells of the grid. */
  predicate InGrid(l: Line) {
    0 <= l.first < CellCount && 0 <= l.second < CellCount && 0 <= l.third < CellCount
  }

  /** The lines of one family, in the order of the source's nested loops. */
  function Family(d: Direction): (r: seq<Line>)
    ensures |r| == if d == Horizontal || d == Vertical then 15 else 9
  {
    match d
    case Horizontal =>
      // for y in 0..4, for x in 0..2
      seq(GridSize * Span, k => var y, x := k / Span, k % Span;
        Line(Cell(y, x), Cell(y, x + 1), Cell(y, x + 2)))
    case Vertical =>
      // for x in 0..4, for y in 0..2
      seq(GridSize * Span, k => var x, y := k / Span, k % Span;
        Line(Cell(y, x), Cell(y + 1, x), Cell(y + 2, x)))
    case Descending =>
      // for y in 0..2, for x in 0..2
      seq(Span * Span, k => var y, x := k / Span, k % Span;
        Line(Cell(y, x), Cell(y + 1, x + 1), Cell(y + 2, x + 2)))
    case Ascending =>
      // for y in 2..4, for x in 0..2
      seq(Span * Span, k => var y, x := k / Span + 2, k % Span;
        Line(Cell(y, x), Cell(y - 1, x + 1), Cell(y - 2, x + 2)))
  }

  /** The list returned by getAllAlignedLines: 15 + 15 + 9 + 9 = 48 lines. */
  function AlignedLines(): (r: seq<Line>)
    ensures |r| == 48
  {
    Family(Horizontal) + Family(Vertical) + Family(Descending) + Family(Ascending)
  }

  /** The shape of a line: three distinct grid cells with the constant step of its direction. */
  lemma LineShape(l: Line, d: Direction)
    requires LineAlong(l, d)
    ensures InGrid(l)
    ensures l.second - l.first == Step(d) && l.third - l.second == Step(d)
    ensures l.first != l.second && l.second != l.third && l.first != l.third
  {
    var row, col := l.first / GridSize, l.first % GridSize;
    assert l.first == row * GridSize + col;
  }

  /** Index arithmetic: k == q * Span + r with 0 <= r < Span splits back into q and r. */
  lemma SplitIndex(k: int, q: int, r: int)
    requires 0 <= r < Span && k == q * Span + r
    ensures k / Span == q && k % Span == r
  {
  }

  /** A cell index splits back into its row and column. */
  lemma CellRowCol(row: int, col: int)
    requires 0 <= col < GridSize
    ensures Cell(row, col) / GridSize == row && Cell(row, col) % GridSize == col
  {
  }

  /** The start cell of the k-th line of a family. */
  function StartOf(d: Direction, k: int): (int, int) {
    match d
    case Horizontal => (k / Span, k % Span)
    case Vertical => (k % Span, k / Span)
    case Descending => (k / Span, k % Span)
    case Ascending => (k / Span + 2, k % Span)
  }

  /** The k-th line of a family starts at StartOf(d, k) and goes along d. */
  lemma FamilyAt(d: Direction, k: int)
    requires 0 <= k < |Family(d)|
    ensures var (row, col) := StartOf(d, k);
      Family(d)[k] == Line(Cell(row, col), Cell(row + RowStep(d), col + ColStep(d)),
                           Cell(row + 2 * RowStep(d), col + 2 * ColStep(d)))
  {
  }

  /** Every line of a family goes along its direction. */
  lemma FamilySound(d: Direction, k: int)
    requires 0 <= k < |Family(d)|
    ensures LineAlong(Family(d)[k], d)
  {
    FamilyAt(d, k);
    var (row, col) := StartOf(d, k);
    SplitIndex(k, k / Span, k % Span);
    CellRowCol(row, col);
    assert Family(d)[k].first / GridSize == row && Family(d)[k].first % GridSize == col;
  }

  /** The position in its family of the line starting at (row, col). */
  function IndexIn(d: Direction, row: int, col: int): int {
    match d
    case Horizontal => row * Span + col
    case Vertical => col * Span + row
    case Descending => row * Span + col
    case Ascending => (row - 2) * Span + col
  }

  /** Every line along a direction is listed by its family. */
  lemma FamilyComplete(d: Direction, l: Line)
    requires LineAlong(l, d)
    ensures l in Family(d)
  {
    var row, col := l.first / GridSize, l.first % GridSize;
    assert l.first == Cell(row, col);
    var k := IndexIn(d, row, col);
    match d {
      case Horizontal => SplitIndex(k, row, col);
      case Vertical => SplitIndex(k, col, row);
      case Descending => SplitIndex(k, row, col);
      case Ascending => SplitIndex(k, row - 2, col);
    }
    FamilyAt(d, k);
    assert Family(d)[k] == l;
  }

  /** A family lists exactly the lines along its direction. */
  lemma FamilyIff(d: Direction, l: Line)
    ensures l in Family(d) <==> LineAlong(l, d)
  {
    if l in Family(d) {
      var k :| 0 <= k < |Family(d)| && Family(d)[k] == l;
      FamilySound(d, k);
    }
    if LineAlong(l, d) {
      FamilyComplete(d, l);
    }
  }

  /** Soundness and completeness of the enumeration against the geometric definition. */
  lemma AlignedLinesIff(l: Line)
    ensures l in AlignedLines() <==> IsAligned(l)
  {
    FamilyIff(Horizontal, l);
    FamilyIff(Vertical, l);
    FamilyIff(Descending, l);
    FamilyIff(Ascending, l);
  }

  /** Every index of every enumerated line lies in [0, 24]. */
  lemma AlignedLinesInGrid()
    ensures forall l :: l in AlignedLines() ==> InGrid(l)
  {
    forall l | l in AlignedLines()
      ensures InGrid(l)
    {
      AlignedLinesIff(l);
      var d :| LineAlong(l, d);
      LineShape(l, d);
    }
  }

  lemma FamilyDistinct(d: Direction)
    ensures Distinct(Family(d))
  {
    var f := Family(d);
    forall i, j | 0 <= i < j < |f|
      ensures f[i] != f[j]
    {
      assert f[i].first != f[j].first;
    }
  }

  /** A line belongs to one family only: the families have different steps. */
  lemma FamiliesDisjoint(d1: Direction, d2: Direction, l: Line)
    requires l in Family(d1) && l in Family(d2)
    ensures d1 == d2
  {
    FamilyIff(d1, l);
    FamilyIff(d2, l);
    LineShape(l, d1);
    LineShape(l, d2);
  }

  /** The 48 lines are pairwise different. */
  lemma AlignedLinesDistinct()
    ensures Distinct(AlignedLines())
  {
    var h, v, de, a := Family(Horizontal), Family(Vertical), Family(Descending), Family(Ascending);
    FamilyDistinct(Horizontal); FamilyDistinct(Vertical);
    FamilyDistinct(Descending); FamilyDistinct(Ascending);
    forall l | l in h ensures l !in v {
      if l in v { FamiliesDisjoint(Horizontal, Vertical, l); }
    }
    DistinctConcat(h, v);
    forall l | l in h + v ensures l !in de {
      if l in de {
        if l in h { FamiliesDisjoint(Horizontal, Descending, l); } else { FamiliesDisjoint(Vertical, Descending, l); }
      }
    }
    DistinctConcat(h + v, de);
    forall l | l in h + v + de ensures l !in a {
      if l in a {
        if l in h { FamiliesDisjoint(Horizontal, Ascending, l); }
        else if l in v { FamiliesDisjoint(Vertical, Ascending, l); }
        else { FamiliesDisjoint(Descending, Ascending, l); }
      }
    }
    DistinctConcat(h + v + de, a);
  }

  /** getAllAlignedLines: builds the 48 lines by pushing them in four pairs of nested loops. */
  method GetAllAlignedLines() returns (lines: seq<Line>)
    ensures lines == AlignedLines()
    ensures |lines| == 48
  {
    lines := [];
    lines := PushHorizontal(lines);
    lines := PushVertical(lines);
    lines := PushDescending(lines);
    lines := PushAscending(lines);
  }

  /** The horizontal loops of getAllAlignedLines: 5 rows, 3 lines per row. */
  method PushHorizontal(start: seq<Line>) returns (lines: seq<Line>)
    ensures lines == start + Family(Horizontal)
  {
    lines := start;
    ghost var f := Family(Horizontal);
    for y := 0 to GridSize
      invariant lines == start + f[..y * Span]
    {
      for x := 0 to Span
        invariant lines == start + f[..y * Span + x]
      {
        ghost var k := y * Span + x;
        SplitIndex(k, y, x);
        FamilyAt(Horizontal, k);
        lines := lines + [Line(y * GridSize + x, y * GridSize + (x + 1), y * GridSize + (x + 2))];
        assert f[..k + 1] == f[..k] + [f[k]];
      }
    }
    assert f[..GridSize * Span] == f;
  }

  /** The vertical loops of getAllAlignedLines: 5 columns, 3 lines per column. */
  method PushVertical(start: seq<Line>) returns (lines: seq<Line>)
    ensures lines == start + Family(Vertical)
  {
    lines := start;
    ghost var f := Family(Vertical);
    for x := 0 to GridSize
      invariant lines == start + f[..x * Span]
    {
      for y := 0 to Span
        invariant lines == start + f[..x * Span + y]
      {
        ghost var k := x * Span + y;
        SplitIndex(k, x, y);
        FamilyAt(Vertical, k);
        lines := lines + [Line(y * GridSize + x, (y + 1) * GridSize + x, (y + 2) * GridSize + x)];
        assert f[..k + 1] == f[..k] + [f[k]];
      }
    }
    assert f[..GridSize * Span] == f;
  }

  /** The descending-diagonal loops of getAllAlignedLines: start cells in rows and columns 0..2. */
  method PushDescending(start: seq<Line>) returns (lines: seq<Line>)
    ensures lines == start + Family(Descending)
  {
    lines := start;
    ghost var f := Family(Descending);
    for y := 0 to Span
      invariant lines == start + f[..y * Span]
    {
      for x := 0 to Span
        invariant lines == start + f[..y * Span + x]
      {
        ghost var k := y * Span + x;
        SplitIndex(k, y, x);
        FamilyAt(Descending, k);
        lines := lines + [Line(y * GridSize + x, (y + 1) * GridSize + (x + 1), (y + 2) * GridSize + (x + 2))];
        assert f[..k + 1] == f[..k] + [f[k]];
      }
    }
    assert f[..Span * Span] == f;
  }

  /** The ascending-diagonal loops of getAllAlignedLines: start cells in rows 2..4, columns 0..2. */
  method PushAscending(start: seq<Line>) returns (lines: seq<Line>)
    ensures lines == start + Family(Ascending)
  {
    lines := start;
    ghost var f := Family(Ascending);
    for y := 2 to GridSize
      invariant lines == start + f[..(y - 2) * Span]
    {
      for x := 0 to Span
        invariant lines == start + f[..(y - 2) * Span + x]
      {
        ghost var k := (y - 2) * Span + x;
        SplitIndex(k, y - 2, x);
        FamilyAt(Ascending, k);
        lines := lines + [Line(y * GridSize + x, (y - 1) * GridSize + (x + 1), (y - 2) * GridSize + (x + 2))];
        assert f[..k + 1] == f[..k] + [f[k]];
      }
    }
    assert f[..Span * Span] == f;
  }
}
